/** What the scheduler computes, as values: node records, the edge-taking rule, the wave,
    the checkpoint, and the invariant that holds between waves. */
module Engine {
  import opened Wrappers
  import opened Ordering
  import opened Graphs

  const RUN_NAMESPACE := Id("inputs")

  datatype NodeStatus = Pending | Running | Completed | Failed | Skipped | Paused

  /** One node's execution record; attempts and durations are left out. */
  datatype NodeRun = NodeRun(
    status: NodeStatus, wave: Option<nat>, outputs: Outputs,
    branch: Option<string>, error: Option<Fault>, recovered: bool)
  {
    /** It ran and its outputs count: it completed, or its failure was absorbed. */
    predicate Ran() { status.Completed? || (status.Failed? && recovered) }

    predicate Settled() { Ran() || status.Skipped? }

    predicate Fatal() { status.Failed? && !recovered }

    function Timeless(): NodeRun { this.(wave := None) }
  }

  const FRESH := NodeRun(Pending, None, map[], None, None, false)

  /** What a node may do once its retries are spent. */
  datatype Outcome =
    | Returned(outputs: Outputs, branch: Option<string>)
    | Throws(fault: Fault)
    | Asks(question: Outputs)

  /** What a node sees: its predecessors' outputs, and the variable pool. */
  datatype Context = Context(upstream: map<Id, Outputs>, pool: map<Id, Outputs>)

  type Behaviour = (Id, Context) -> Outcome

  /** The run's mutable state, as one value. */
  datatype State = State(
    inputs: Outputs, pool: map<Id, Outputs>, pending: map<Id, int>, taken: map<Id, int>,
    runs: map<Id, NodeRun>, completed: map<Id, Outputs>, ready: seq<Id>, waves: nat,
    failures: seq<Id>, awaiting: map<Id, Outputs>)

  // ------------------------------------------------------------ one node

  function Labels(g: Graph, n: Id): set<string> {
    set e | e in g.edges && e.source == n && e.branch.Some? :: e.branch.value
  }

  /** The error strategy, applied to a record that has just failed. */
  function Absorb(g: Graph, n: Id, failed: NodeRun): NodeRun
    requires n in g.nodes && failed.error.Some?
  {
    var policy := g.nodes[n].retry;
    match policy.onError
    case Fail => failed
    case Default =>
      failed.(status := Completed, recovered := true,
              outputs := policy.errorOutput + map["error" := ErrorText(failed.error.value)])
    case Branch =>
      if policy.errorBranch in Labels(g, n) then
        failed.(branch := Some(policy.errorBranch), recovered := true,
                outputs := map["error" := ErrorText(failed.error.value)])
      else
        failed.(error := Some(NoErrorEdge(failed.error.value, policy.errorBranch, Labels(g, n))))
  }

  /** The record a dispatched node ends its wave with. */
  function Finished(g: Graph, n: Id, wave: Option<nat>, o: Outcome): NodeRun
    requires n in g.nodes
  {
    match o
    case Asks(_) => NodeRun(Paused, wave, map[], None, None, false)
    case Throws(fault) => Absorb(g, n, NodeRun(Failed, wave, map[], None, Some(fault), false))
    case Returned(outputs, branch) =>
      if branch.Some? && branch.value !in Labels(g, n) then
        Absorb(g, n, NodeRun(Failed, wave, outputs, None,
                             Some(UnknownBranch(n, branch.value, Labels(g, n))), false))
      else
        NodeRun(Completed, wave, outputs, branch, None, false)
  }

  function ErrorLabel(policy: RetryPolicy): Option<string> {
    if policy.onError.Branch? then Some(policy.errorBranch) else None
  }

  /** Is this outgoing edge taken, given how its source settled? */
  predicate EdgeTaken(policy: RetryPolicy, e: Edge, branch: Option<string>, wasSkipped: bool, errorRouted: bool) {
    if wasSkipped then false
    else if errorRouted then e.branch == branch
    else if branch.Some? then e.branch.None? || e.branch == branch
    else e.branch.None? || e.branch != ErrorLabel(policy)
  }

  // ------------------------------------------------------------ counters

  predicate SettledIn(runs: map<Id, NodeRun>, n: Id) { n in runs && runs[n].Settled() }

  predicate RanIn(runs: map<Id, NodeRun>, n: Id) { n in runs && runs[n].Ran() }

  /** `EdgeTaken`, read off the source's record. */
  predicate Takes(g: Graph, runs: map<Id, NodeRun>, e: Edge) {
    && e.source in g.nodes && e.source in runs
    && var rec := runs[e.source];
       EdgeTaken(g.nodes[e.source].retry, e, rec.branch, rec.status.Skipped?, rec.status.Failed?)
  }

  /** An edge has been counted down once its source is settled and no longer in the worklist. */
  predicate Counted(runs: map<Id, NodeRun>, worklist: set<Id>, e: Edge) {
    SettledIn(runs, e.source) && e.source !in worklist
  }

  ghost function Uncounted(g: Graph, runs: map<Id, NodeRun>, worklist: set<Id>, n: Id): set<Edge> {
    set e | e in g.edges && e.target == n && !Counted(runs, worklist, e)
  }

  ghost function TakenIn(g: Graph, runs: map<Id, NodeRun>, worklist: set<Id>, n: Id): set<Edge> {
    set e | e in g.edges && e.target == n && Counted(runs, worklist, e) && Takes(g, runs, e)
  }

  ghost predicate Domains(g: Graph, s: State) {
    s.pending.Keys == s.taken.Keys == s.runs.Keys == g.nodes.Keys
  }

  /** Both counters of one node say what they should: the edges still to be counted down, and
      the counted ones that were taken. */
  ghost predicate Exact(g: Graph, s: State, worklist: set<Id>, n: Id)
    requires Domains(g, s) && n in g.nodes
  {
    && s.pending[n] == |Uncounted(g, s.runs, worklist, n)|
    && s.taken[n] == |TakenIn(g, s.runs, worklist, n)|
  }

  ghost predicate Counters(g: Graph, s: State, worklist: set<Id>)
    requires Domains(g, s)
  {
    forall n {:trigger Exact(g, s, worklist, n)} :: n in g.nodes ==> Exact(g, s, worklist, n)
  }

  /** How one node's status and counters fit together: `due` nodes are to be dispatched,
      `unsorted` ones have a counter of zero but no decided fate yet. */
  predicate Fits(status: NodeStatus, pending: int, taken: int, isRoot: bool, due: bool, unsorted: bool) {
    var entered := isRoot || taken > 0;
    && (due ==> status.Pending? && pending == 0 && entered)
    && (unsorted ==> status.Pending? && pending == 0 && !isRoot && !due)
    && match status
       case Pending => pending == 0 ==> due || unsorted
       case Skipped => pending == 0 && !entered
       case _ => pending == 0 && entered
  }

  ghost predicate Placed(g: Graph, s: State, due: set<Id>, unsorted: set<Id>, n: Id)
    requires Domains(g, s) && n in g.nodes
  {
    Fits(s.runs[n].status, s.pending[n], s.taken[n], g.In(n) == {}, n in due, n in unsorted)
  }

  ghost predicate Tally(g: Graph, s: State, worklist: set<Id>, due: set<Id>, unsorted: set<Id>) {
    && Domains(g, s)
    && Counters(g, s, worklist)
    && due <= g.nodes.Keys && unsorted <= g.nodes.Keys
    && forall n {:trigger Placed(g, s, due, unsorted, n)} :: n in g.nodes ==> Placed(g, s, due, unsorted, n)
  }

  ghost function Elements(s: seq<Id>): set<Id> { set x | x in s }

  /** Nothing is running, nothing has failed for good, and the open questions are those of the paused nodes. */
  ghost predicate Calm(s: State) {
    && Distinct(s.ready)
    && s.failures == []
    && (forall n :: n in s.runs ==> !s.runs[n].status.Running? && !s.runs[n].Fatal())
    && (forall n :: n in s.runs && s.runs[n].status.Paused? ==> s.runs[n].branch == None)
    && s.awaiting.Keys == set n | n in s.runs && s.runs[n].status.Paused?
  }

  /** The state between two waves: exact counters, an exact ready queue, nothing in flight. */
  ghost predicate Frontier(g: Graph, s: State) {
    Tally(g, s, {}, Elements(s.ready), {}) && Calm(s)
  }

  // ------------------------------------------------------------ a run's first state

  function Initial(g: Graph, inputs: Outputs): State {
    State(inputs, map[RUN_NAMESPACE := inputs],
          map n | n in g.nodes :: |g.Predecessors(n)|,
          map n | n in g.nodes :: 0,
          map n | n in g.nodes :: FRESH,
          map[], Sorted(g.Roots()), 0, [], map[])
  }

  // ------------------------------------------------------------ settling

  /** Before and after the worklist is drained. Records change only by being skipped, the
      ready queue grows by a sorted tail, and the result is a frontier; `DrainedUnique`
      shows that this leaves no choice. */
  ghost predicate Drained(g: Graph, s: State, t: State) {
    && t == s.(runs := t.runs, pending := t.pending, taken := t.taken, ready := t.ready)
    && t.runs.Keys == s.runs.Keys
    && (forall n :: n in s.runs ==>
          || t.runs[n] == s.runs[n]
          || (s.runs[n].status.Pending? && t.runs[n] == s.runs[n].(status := Skipped, wave := Some(s.waves))))
    && s.ready <= t.ready && Ascending(t.ready[|s.ready|..])
    && Frontier(g, t)
  }

  // ------------------------------------------------------------ one wave

  function ContextOf(g: Graph, s: State, n: Id): Context {
    Context(map p | p in s.completed && g.HasEdge(p, n) :: s.completed[p], s.pool)
  }

  /** What executing `n` against this state brings. */
  function OutcomeOf(g: Graph, beh: Behaviour, s: State, n: Id): Outcome { beh(n, ContextOf(g, s, n)) }

  function RecordAfter(g: Graph, beh: Behaviour, s: State, n: Id): NodeRun
    requires n in s.runs
  {
    if n in s.ready && n in g.nodes then Finished(g, n, Some(s.waves + 1), OutcomeOf(g, beh, s, n)) else s.runs[n]
  }

  /** Every node of the ready queue has been executed, whatever the interleaving. */
  ghost function Gathered(g: Graph, beh: Behaviour, s: State): State {
    s.(waves := s.waves + 1,
       runs := map n | n in s.runs :: RecordAfter(g, beh, s, n),
       awaiting := s.awaiting +
         map n | n in s.ready && OutcomeOf(g, beh, s, n).Asks? :: OutcomeOf(g, beh, s, n).question)
  }

  ghost function RanOf(runs: map<Id, NodeRun>, batch: seq<Id>): map<Id, Outputs> {
    map n | n in batch && RanIn(runs, n) :: runs[n].outputs
  }

  /** The batch's outputs become visible, and the queue it came from is empty. */
  ghost function Published(s: State, batch: seq<Id>): State {
    s.(completed := s.completed + RanOf(s.runs, batch), pool := s.pool + RanOf(s.runs, batch), ready := [])
  }

  function FatalOf(runs: map<Id, NodeRun>, batch: seq<Id>): seq<Id> {
    if batch == [] then []
    else
      var n := batch[|batch| - 1];
      FatalOf(runs, batch[..|batch| - 1]) + if n in runs && runs[n].Fatal() then [n] else []
  }

  ghost predicate WaveStep(g: Graph, beh: Behaviour, s: State, t: State) {
    && s.ready != [] && s.failures == []
    && var mid := Published(Gathered(g, beh, s), s.ready);
       var fatal := FatalOf(mid.runs, s.ready);
       if fatal != [] then t == mid.(failures := fatal) else Drained(g, mid, t)
  }

  // ------------------------------------------------------------ checkpoints

  datatype Checkpoint = Checkpoint(
    inputs: Outputs, pending: map<Id, int>, taken: map<Id, int>, nodes: map<Id, NodeRun>,
    ready: seq<Id>, variables: map<Id, Outputs>, awaiting: map<Id, Outputs>, waves: nat)

  function Save(s: State): Checkpoint {
    Checkpoint(s.inputs, s.pending, s.taken, s.runs, s.ready, s.pool, s.awaiting, s.waves)
  }

  /** As the code restores: outputs come from COMPLETED records only, and the run
      namespace of the pool is always the checkpoint's inputs. */
  function Restore(g: Graph, c: Checkpoint): State {
    var runs := map n | n in g.nodes :: if n in c.nodes then c.nodes[n] else FRESH;
    State(c.inputs, (map[RUN_NAMESPACE := c.inputs] + (c.variables - {RUN_NAMESPACE})),
          c.pending, c.taken, runs,
          map n | n in runs && runs[n].status.Completed? :: runs[n].outputs,
          c.ready, c.waves, [], c.awaiting)
  }

  /** The given nodes have been answered: they completed with the answer as their output. */
  function AnsweredFor(s: State, answers: map<Id, Outputs>, done: set<Id>): State
    requires done <= answers.Keys
  {
    var given := map n | n in done :: answers[n];
    s.(runs := map n | n in s.runs ::
         if n in done then s.runs[n].(outputs := answers[n], status := Completed) else s.runs[n],
       completed := s.completed + given, pool := s.pool + given)
  }

  function Answered(s: State, answers: map<Id, Outputs>): State
    requires s.awaiting.Keys <= answers.Keys
  {
    AnsweredFor(s, answers, s.awaiting.Keys).(awaiting := map[])
  }

  /** `resume`, given an answer to every question the checkpoint waits on. */
  ghost predicate ResumeStep(g: Graph, answers: map<Id, Outputs>, c: Checkpoint, t: State) {
    c.awaiting.Keys <= answers.Keys && Drained(g, Answered(Restore(g, c), answers), t)
  }

  // ------------------------------------------------------------ runs that pause, crash and resume

  /** A run in memory, and the last checkpoint that outlives it. */
  datatype World = World(state: State, saved: Option<Checkpoint>)

  predicate Exited(s: State) { s.ready == [] || s.failures != [] }

  datatype RunStatus = RunCompleted | RunFailed | RunPaused

  function StatusOf(s: State): RunStatus {
    if s.failures != [] then RunFailed else if s.awaiting != map[] then RunPaused else RunCompleted
  }

  /** One wave; with `durable`, its frontier is saved unless the run has failed. */
  ghost predicate WaveNext(g: Graph, beh: Behaviour, durable: bool, w: World, v: World) {
    && WaveStep(g, beh, w.state, v.state)
    && v.saved == if durable && v.state.failures == [] then Some(Save(v.state)) else w.saved
  }

  /** The loop has exited: a paused run is saved, a finished durable run is deleted. */
  ghost predicate ExitNext(durable: bool, w: World, v: World) {
    && Exited(w.state)
    && v == if StatusOf(w.state).RunPaused? then World(w.state, Some(Save(w.state)))
            else if durable then World(w.state, None) else w
  }

  /** Whatever was in memory is lost or abandoned, and the run resumes from the checkpoint. */
  ghost predicate ResumeNext(g: Graph, answers: map<Id, Outputs>, w: World, v: World) {
    && w.saved.Some? && ResumeStep(g, answers, w.saved.value, v.state) && v.saved == w.saved
  }

  ghost predicate Next(g: Graph, beh: Behaviour, answers: map<Id, Outputs>, durable: bool, w: World, v: World) {
    WaveNext(g, beh, durable, w, v) || ExitNext(durable, w, v) || ResumeNext(g, answers, w, v)
  }
}
