/** What a wave makes of the nodes it executes, and where their edges lead: read off outcomes, records and
    labels alone. */
module Routing {
  import opened Wrappers
  import opened Ordering
  import opened Graphs
  import opened Engine
  import opened Frontiers
  import opened Histories
  import opened RunTheorems

  // ------------------------------------------------------------ what an outcome leaves behind

  /** Some edge out of `n` carries this label. */
  ghost predicate Labelled(g: Graph, n: Id, choice: string) {
    exists e :: e in g.edges && e.source == n && e.branch == Some(choice)
  }

  /** All the labels its edges carry. */
  ghost function Carried(g: Graph, n: Id): set<string> {
    set e | e in g.edges && e.source == n && e.branch.Some? :: e.branch.value
  }

  /** Why an outcome is a failure, if it is one: the node raised, or it chose a label that no edge carries. */
  ghost function FaultOf(g: Graph, n: Id, o: Outcome): Option<Fault> {
    match o
    case Throws(fault) => Some(fault)
    case Returned(_, Some(choice)) =>
      if Labelled(g, n, choice) then None
      else Some(UnknownBranch(n, choice, Carried(g, n)))
    case _ => None
  }

  /** The record an outcome leaves: a question pauses; a result completes, with its branch; and a failure
      follows the node's error strategy. */
  ghost predicate LeftBy(g: Graph, n: Id, o: Outcome, rec: NodeRun)
    requires n in g.nodes
  {
    var policy := g.nodes[n].retry;
    match FaultOf(g, n, o)
    case None =>
      && !rec.recovered && rec.error.None?
      && (o.Asks? ==> rec.status.Paused? && rec.outputs == map[] && rec.branch.None?)
      && (o.Returned? ==> rec.status.Completed? && rec.outputs == o.outputs && rec.branch == o.branch)
    case Some(fault) =>
      match policy.onError
      case Fail => rec.Fatal() && rec.error == Some(fault)
      case Default =>
        && rec.status.Completed? && rec.recovered && rec.branch.None? && rec.error == Some(fault)
        && rec.outputs == policy.errorOutput["error" := ErrorText(fault)]
      case Branch =>
        if Labelled(g, n, policy.errorBranch) then
          && rec.status.Failed? && rec.recovered && rec.branch == Some(policy.errorBranch)
          && rec.error == Some(fault) && rec.outputs == map["error" := ErrorText(fault)]
        else
          rec.Fatal() && rec.error == Some(NoErrorEdge(fault, policy.errorBranch, Carried(g, n)))
  }

  lemma LabelsCarried(g: Graph, n: Id, choice: string)
    ensures choice in Labels(g, n) <==> Labelled(g, n, choice)
  {
    if Labelled(g, n, choice) {
      var e :| e in g.edges && e.source == n && e.branch == Some(choice);
      assert e.branch.value in Labels(g, n);
    }
  }

  lemma FinishedLeaves(g: Graph, n: Id, wave: Option<nat>, o: Outcome)
    requires n in g.nodes
    ensures LeftBy(g, n, o, Engine.Finished(g, n, wave, o)) && Engine.Finished(g, n, wave, o).wave == wave
  {
    LabelsCarried(g, n, g.nodes[n].retry.errorBranch);
    if o.Returned? && o.branch.Some? { LabelsCarried(g, n, o.branch.value); }
    hide Labelled;
    var fault := FaultOf(g, n, o);
    if fault.Some? {
      var e := map["error" := ErrorText(fault.value)];
      assert g.nodes[n].retry.errorOutput + e == g.nodes[n].retry.errorOutput["error" := ErrorText(fault.value)];
    }
  }

  ghost predicate Before(whole: seq<Id>, x: Id, y: Id) {
    exists k, l :: 0 <= k < l < |whole| && whole[k] == x && whole[l] == y
  }

  /** The elements of `part` stand in `whole` in the same order. */
  ghost predicate InOrder(part: seq<Id>, whole: seq<Id>) {
    forall i, j :: 0 <= i < j < |part| ==> Before(whole, part[i], part[j])
  }

  lemma InOrderGrows(part: seq<Id>, whole: seq<Id>, n: Id)
    requires InOrder(part, whole) && forall x :: x in part ==> x in whole
    ensures InOrder(part, whole + [n]) && InOrder(part + [n], whole + [n])
  {
    var longer := whole + [n];
    forall x, y | Before(whole, x, y) ensures Before(longer, x, y) {
      var k, l :| 0 <= k < l < |whole| && whole[k] == x && whole[l] == y;
      assert longer[k] == x && longer[l] == y;
    }
    forall x | x in whole ensures Before(longer, x, n) {
      var k :| 0 <= k < |whole| && whole[k] == x;
      assert longer[k] == x && longer[|whole|] == n;
    }
  }

  lemma {:induction false} FatalInOrder(runs: map<Id, NodeRun>, batch: seq<Id>)
    ensures InOrder(FatalOf(runs, batch), batch)
  {
    if batch != [] {
      var rest := batch[..|batch| - 1];
      FatalInOrder(runs, rest);
      FatalElements(runs, rest);
      InOrderGrows(FatalOf(runs, rest), rest, batch[|batch| - 1]);
      assert rest + [batch[|batch| - 1]] == batch && FatalOf(runs, rest) + [] == FatalOf(runs, rest);
    }
  }

  /** What a wave does to a node it executes. The node sees what its completed predecessors published; its
      record is the one its outcome leaves; an open question is kept to be answered, and outputs that count
      are published. The run fails for exactly the nodes whose failure nothing absorbs, in batch order. */
  lemma WaveOutcomes(g: Graph, beh: Behaviour, s: State, t: State, n: Id)
    requires Frontier(g, s) && WaveStep(g, beh, s, t) && n in s.ready
    ensures n in g.nodes && n in t.runs
    ensures var o := beh(n, Context(map p | p in s.completed && g.HasEdge(p, n) :: s.completed[p], s.pool));
            && LeftBy(g, n, o, t.runs[n])
            && (o.Asks? ==> n in t.awaiting && t.awaiting[n] == o.question)
    ensures t.runs[n].wave == Some(s.waves + 1) && t.waves == s.waves + 1
    ensures t.runs[n].Ran() ==>
              && n in t.completed && t.completed[n] == t.runs[n].outputs
              && n in t.pool && t.pool[n] == t.runs[n].outputs
    ensures n in t.failures <==> t.runs[n].Fatal()
    ensures InOrder(t.failures, s.ready)
  {
    hide InOrder;
    hide LeftBy;
    WaveRecordOf(g, beh, s, t, n);
    WaveShows(g, beh, s, t, n);
    WaveFailures(g, beh, s, t);
    hide Frontier;
    hide WaveStep;
  }

  lemma WaveRecordOf(g: Graph, beh: Behaviour, s: State, t: State, n: Id)
    requires Frontier(g, s) && WaveStep(g, beh, s, t) && n in s.ready
    ensures n in g.nodes && n in s.runs && n in t.runs
    ensures t.runs[n] == Engine.Finished(g, n, Some(s.waves + 1), OutcomeOf(g, beh, s, n))
    ensures LeftBy(g, n, OutcomeOf(g, beh, s, n), t.runs[n]) && t.runs[n].wave == Some(s.waves + 1)
  {
    hide LeftBy;
    hide Frontier;
    hide WaveStep;
    hide OutcomeOf;
    hide Engine.Finished;
    FrontierBatch(g, s);
    NodeAfterWave(g, beh, s, n);
    RecordMoves(g, beh, s, t, n);
    FinishedLeaves(g, n, Some(s.waves + 1), OutcomeOf(g, beh, s, n));
  }

  lemma WaveFailures(g: Graph, beh: Behaviour, s: State, t: State)
    requires Frontier(g, s) && WaveStep(g, beh, s, t)
    ensures t.waves == s.waves + 1 && InOrder(t.failures, s.ready)
    ensures forall n :: n in s.ready && n in t.runs ==> (n in t.failures <==> t.runs[n].Fatal())
  {
    hide InOrder;
    var mid := Published(Gathered(g, beh, s), s.ready);
    FatalElements(mid.runs, s.ready);
    FatalInOrder(mid.runs, s.ready);
    hide Tally;
    hide RecordAfter;
    hide OutcomeOf;
    hide FatalOf;
    if FatalOf(mid.runs, s.ready) == [] {
      assert InOrder([], s.ready);
    }
  }

  lemma OutputsShown(s: State, batch: seq<Id>, n: Id)
    requires n in batch && RanIn(s.runs, n)
    ensures var t := Published(s, batch);
      && n in t.completed && t.completed[n] == s.runs[n].outputs
      && n in t.pool && t.pool[n] == s.runs[n].outputs
  {
    hide NodeRun.Ran;
  }

  lemma QuestionKept(g: Graph, beh: Behaviour, s: State, n: Id)
    requires n in s.ready && OutcomeOf(g, beh, s, n).Asks?
    ensures var t := Gathered(g, beh, s); n in t.awaiting && t.awaiting[n] == OutcomeOf(g, beh, s, n).question
  {
    hide OutcomeOf;
    hide RecordAfter;
  }

  /** The question of a node that asked is kept, and the outputs of one that ran are published. */
  lemma WaveShows(g: Graph, beh: Behaviour, s: State, t: State, n: Id)
    requires Frontier(g, s) && WaveStep(g, beh, s, t) && n in s.ready && n in t.runs
    ensures OutcomeOf(g, beh, s, n).Asks? ==>
              n in t.awaiting && t.awaiting[n] == OutcomeOf(g, beh, s, n).question
    ensures t.runs[n].Ran() ==>
              && n in t.completed && t.completed[n] == t.runs[n].outputs
              && n in t.pool && t.pool[n] == t.runs[n].outputs
  {
    hide Frontier;
    hide WaveStep;
    hide RecordAfter;
    hide OutcomeOf;
    hide NodeRun.Ran;
    FrontierBatch(g, s);
    NodeAfterWave(g, beh, s, n);
    RecordMoves(g, beh, s, t, n);
    WaveTables(g, beh, s, t);
    var gathered := Gathered(g, beh, s);
    assert gathered.runs[n] == RecordAfter(g, beh, s, n) == t.runs[n];
    if OutcomeOf(g, beh, s, n).Asks? { QuestionKept(g, beh, s, n); }
    if t.runs[n].Ran() { OutputsShown(gathered, s.ready, n); }
  }

  lemma WaveTables(g: Graph, beh: Behaviour, s: State, t: State)
    requires WaveStep(g, beh, s, t)
    ensures var mid := Published(Gathered(g, beh, s), s.ready);
            t.awaiting == mid.awaiting && t.completed == mid.completed && t.pool == mid.pool
  {
    hide Frontier;
    hide Gathered;
    hide FatalOf;
  }

  // ------------------------------------------------------------ which edges lead on

  /** The edge leads nowhere: its source was skipped; or failed, and this is not its error edge; or chose
      another label than this edge's; or chose none, and this is the edge kept for its failure. */
  predicate PassedBy(g: Graph, runs: map<Id, NodeRun>, e: Edge)
    requires e.source in g.nodes && e.source in runs
  {
    var rec, policy := runs[e.source], g.nodes[e.source].retry;
    match rec.status
    case Skipped => true
    case Failed => e.branch != Some(policy.errorBranch)
    case Completed =>
      if rec.branch.Some? then e.branch.Some? && e.branch != rec.branch
      else policy.onError.Branch? && e.branch == Some(policy.errorBranch)
    case _ => false
  }

  /** A failure that was absorbed and still counts as one was routed to the error edges. */
  ghost predicate Routed(g: Graph, runs: map<Id, NodeRun>) {
    forall n :: n in g.nodes && n in runs && runs[n].status.Failed? && runs[n].recovered ==>
      runs[n].branch == Some(g.nodes[n].retry.errorBranch)
  }

  lemma WaveRoutes(g: Graph, beh: Behaviour, s: State, t: State)
    requires Frontier(g, s) && WaveStep(g, beh, s, t) && Routed(g, s.runs)
    ensures Routed(g, t.runs)
  {
    hide Frontier;
    hide WaveStep;
    hide OutcomeOf;
    WaveKeys(g, beh, s, t);
    forall n | n in g.nodes && n in t.runs && t.runs[n].status.Failed? && t.runs[n].recovered
      ensures t.runs[n].branch == Some(g.nodes[n].retry.errorBranch)
    {
      RecordMoves(g, beh, s, t, n);
      if n in s.ready { WaveRecordOf(g, beh, s, t, n); }
    }
  }

  lemma AnsweredRoutes(g: Graph, answers: map<Id, Outputs>, s: State)
    requires Frontier(g, s) && s.awaiting.Keys <= answers.Keys && Routed(g, s.runs)
    ensures Routed(g, Answered(s, answers).runs)
  {
    AnsweredRuns(g, s, answers);
    hide Frontier;
    hide Answered;
    hide Settlements;
  }

  lemma DrainRoutes(g: Graph, s: State, t: State)
    requires Drained(g, s, t) && Routed(g, s.runs)
    ensures Routed(g, t.runs)
  {
    hide Frontier;
  }

  lemma ResumeRoutes(g: Graph, answers: map<Id, Outputs>, c: Checkpoint, t: State)
    requires Resumable(g, c) && ResumeStep(g, answers, c, t) && Routed(g, c.nodes)
    ensures Routed(g, t.runs)
  {
    hide Frontier;
    hide Answered;
    hide Drained;
    hide Routed;
    RestoredRuns(g, c);
    RestoredAsks(g, c);
    hide Restore;
    AnsweredRoutes(g, answers, Restore(g, c));
    DrainRoutes(g, Answered(Restore(g, c), answers), t);
  }

  ghost predicate RoutedWorld(g: Graph, w: World) {
    Routed(g, w.state.runs) && (w.saved.Some? ==> Routed(g, w.saved.value.nodes))
  }

  lemma StepRoutes(g: Graph, beh: Behaviour, answers: map<Id, Outputs>, durable: bool, w: World, v: World)
    requires Consistent(g, w) && Next(g, beh, answers, durable, w, v) && RoutedWorld(g, w)
    ensures RoutedWorld(g, v)
  {
    hide Routed;
    hide Frontier;
    if WaveNext(g, beh, durable, w, v) {
      WaveRoutes(g, beh, w.state, v.state);
    } else if ResumeNext(g, answers, w, v) {
      ResumeRoutes(g, answers, w.saved.value, v.state);
    }
  }

  lemma {:induction false} LineageRoutes(
    g: Graph, beh: Behaviour, answers: map<Id, Outputs>, durable: bool, inputs: Outputs, trace: seq<World>)
    requires g.Valid() && Lineage(g, beh, answers, durable, inputs, trace)
    ensures RoutedWorld(g, trace[|trace| - 1])
    decreases |trace|
  {
    if |trace| > 1 {
      hide Consistent;
      hide Next;
      hide RoutedWorld;
      var before := trace[..|trace| - 1];
      LineageRoutes(g, beh, answers, durable, inputs, before);
      LineageConsistent(g, beh, answers, durable, inputs, before);
      StepRoutes(g, beh, answers, durable, before[|before| - 1], trace[|trace| - 1]);
    }
  }

  lemma PassedByMeansNotTaken(g: Graph, runs: map<Id, NodeRun>, e: Edge)
    requires Routed(g, runs) && e.source in g.nodes && SettledIn(runs, e.source)
    ensures PassedBy(g, runs, e) <==> !Takes(g, runs, e)
  {}

  /** Every node of every frontier, in whatever run that pauses, crashes and resumes: it is undecided and
      not ready as long as a predecessor is unsettled. After that it is skipped exactly if it has incoming
      edges and is passed by along all of them; otherwise it is ready until it has been executed. */
  lemma FateOfNode(
    g: Graph, beh: Behaviour, answers: map<Id, Outputs>, durable: bool, inputs: Outputs, trace: seq<World>, n: Id)
    requires g.Valid() && Lineage(g, beh, answers, durable, inputs, trace) && n in g.nodes
    requires trace[|trace| - 1].state.failures == []
    ensures var s := trace[|trace| - 1].state;
            && s.runs.Keys == g.nodes.Keys
            && if exists e :: e in g.edges && e.target == n && !SettledIn(s.runs, e.source)
               then s.runs[n].status.Pending? && n !in s.ready
               else && (s.runs[n].status.Skipped? <==>
                          g.In(n) != {} && forall e :: e in g.In(n) ==> PassedBy(g, s.runs, e))
                    && (s.runs[n].status.Pending? <==> n in s.ready)
  {
    LineageConsistent(g, beh, answers, durable, inputs, trace);
    LineageRoutes(g, beh, answers, durable, inputs, trace);
    var s := trace[|trace| - 1].state;
    FateInFrontier(g, s, n);
  }

  lemma FateInFrontier(g: Graph, s: State, n: Id)
    requires g.Valid() && Frontier(g, s) && Routed(g, s.runs) && n in g.nodes
    ensures if exists e :: e in g.edges && e.target == n && !SettledIn(s.runs, e.source)
            then s.runs[n].status.Pending? && n !in s.ready
            else && (s.runs[n].status.Skipped? <==>
                       g.In(n) != {} && forall e :: e in g.In(n) ==> PassedBy(g, s.runs, e))
                 && (s.runs[n].status.Pending? <==> n in s.ready)
  {
    assert Placed(g, s, Elements(s.ready), {}, n) && Exact(g, s, {}, n);
    if e :| e in g.edges && e.target == n && !SettledIn(s.runs, e.source) {
      assert e in Uncounted(g, s.runs, {}, n);
    } else {
      assert Uncounted(g, s.runs, {}, n) == {};
      NoneTaken(g, s.runs, n);
      forall e | e in g.In(n) ensures PassedBy(g, s.runs, e) <==> !Takes(g, s.runs, e) {
        PassedByMeansNotTaken(g, s.runs, e);
      }
    }
  }
}
