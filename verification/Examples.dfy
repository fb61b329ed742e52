/** Runs of two nodes, small enough to follow by hand, which show what a restore forgets. */
module Examples {
  import opened Wrappers
  import opened Ordering
  import opened Graphs
  import opened Engine

  const A := Id("a")
  const H := Id("h")
  const FAULT := Raised("down")

  /** Two nodes and one edge. */
  function Chain(a: Id, policy: RetryPolicy, branch: Option<string>): Graph {
    Graph([a, H], map[a := NodeSpec(a, policy), H := NodeSpec(H, policy)], [Edge(a, H, branch)])
  }

  lemma ChainValid(a: Id, policy: RetryPolicy, branch: Option<string>)
    requires a != H
    ensures Chain(a, policy, branch).Valid()
  {
    assert Chain(a, policy, branch).nodes.Keys == set n | n in Chain(a, policy, branch).ids;
  }

  /** What matters of such a graph. */
  ghost predicate Pair(g: Graph, a: Id, e: Edge) {
    && g.Valid() && a != H && g.nodes.Keys == {a, H} && e.source == a && e.target == H
    && forall d :: d in g.edges <==> d == e
  }

  lemma ChainIsPair(a: Id, policy: RetryPolicy, branch: Option<string>)
    requires a != H
    ensures Pair(Chain(a, policy, branch), a, Edge(a, H, branch))
  {
    ChainValid(a, policy, branch);
    assert Chain(a, policy, branch).edges[0] == Edge(a, H, branch);
  }

  // ------------------------------------------------------------ before and after the first wave

  function Before(a: Id, inputs: Outputs): State {
    State(inputs, map[RUN_NAMESPACE := inputs], map[a := 0, H := 1], map[a := 0, H := 0],
          map[a := FRESH, H := FRESH], map[], [a], 0, [], map[])
  }

  /** `a` has run and its edge was taken: `h` is due. */
  function Later(a: Id, inputs: Outputs, rec: NodeRun): State {
    State(inputs, map[RUN_NAMESPACE := inputs] + map[a := rec.outputs], map[a := 0, H := 0], map[a := 0, H := 1],
          map[a := rec, H := FRESH], map[a := rec.outputs], [H], 1, [], map[])
  }

  lemma OnlyRoot(g: Graph, a: Id, e: Edge)
    requires Pair(g, a, e)
    ensures Sorted(g.Roots()) == [a] && |g.Predecessors(a)| == 0 && |g.Predecessors(H)| == 1
  {
    RootElements(g);
    SortedDistinct(g.Roots());
    var roots := Sorted(g.Roots());
    hide Sorted;
    hide Graph.Roots;
    assert e in g.In(H) && g.In(a) == {} && g.In(H) == {e};
    assert (set n | n in roots) == {a};
    DistinctCardinality(roots);
    assert roots[0] in roots;
    IndegreeCounts(g, a);
    IndegreeCounts(g, H);
  }

  lemma Starts(g: Graph, a: Id, e: Edge, inputs: Outputs)
    requires Pair(g, a, e)
    ensures Initial(g, inputs) == Before(a, inputs)
  {
    hide Sorted;
    hide Graph.Roots;
    hide Graph.Predecessors;
    OnlyRoot(g, a, e);
    var s, t := Initial(g, inputs), Before(a, inputs);
    assert s.pending == t.pending && s.taken == t.taken && s.runs == t.runs;
  }

  lemma LaterNode(g: Graph, a: Id, e: Edge, s: State, n: Id)
    requires Pair(g, a, e) && s.runs.Keys == {a, H} && s.runs[a].Ran() && s.runs[H] == FRESH && Takes(g, s.runs, e)
    requires Domains(g, s) && n in g.nodes && s.pending[n] == 0 && s.taken[n] == (if n == H then 1 else 0)
    ensures Exact(g, s, {}, n) && Placed(g, s, {H}, {}, n)
  {
    hide Takes;
    assert e in g.In(H) && (n == a ==> g.In(n) == {});
    assert Uncounted(g, s.runs, {}, n) == {};
    assert TakenIn(g, s.runs, {}, n) == if n == H then {e} else {};
  }

  lemma LaterFrontier(g: Graph, a: Id, e: Edge, inputs: Outputs, rec: NodeRun)
    requires Pair(g, a, e) && rec.Ran() && Takes(g, map[a := rec, H := FRESH], e)
    ensures Frontier(g, Later(a, inputs, rec))
  {
    hide Exact;
    hide Placed;
    hide Takes;
    var s := Later(a, inputs, rec);
    assert Elements(s.ready) == {H};
    forall n | n in g.nodes ensures Exact(g, s, {}, n) && Placed(g, s, {H}, {}, n) { LaterNode(g, a, e, s, n); }
    assert Calm(s) by { assert (set n | n in s.runs && s.runs[n].status.Paused?) == {}; }
  }

  /** The wave's output is out, its edge not yet counted down. */
  function Between(a: Id, inputs: Outputs, rec: NodeRun): State {
    Later(a, inputs, rec).(ready := [], pending := Before(a, inputs).pending, taken := Before(a, inputs).taken)
  }

  lemma Gathers(g: Graph, a: Id, e: Edge, beh: Behaviour, inputs: Outputs, rec: NodeRun)
    requires Pair(g, a, e) && rec.Ran() && RecordAfter(g, beh, Before(a, inputs), a) == rec
    requires !OutcomeOf(g, beh, Before(a, inputs), a).Asks?
    ensures Published(Gathered(g, beh, Before(a, inputs)), [a]) == Between(a, inputs, rec)
  {
    hide Graph.Valid;
    hide OutcomeOf;
    hide Finished;
    var s, t := Before(a, inputs), Between(a, inputs, rec);
    var mid := Gathered(g, beh, s);
    assert mid.runs == t.runs;
    assert mid.awaiting == map[];
    assert RanOf(mid.runs, [a]) == map[a := rec.outputs];
    assert map[] + map[a := rec.outputs] == t.completed;
  }

  lemma FirstWave(g: Graph, a: Id, e: Edge, beh: Behaviour, inputs: Outputs, rec: NodeRun)
    requires Pair(g, a, e) && rec.Ran() && Takes(g, map[a := rec, H := FRESH], e)
    requires RecordAfter(g, beh, Before(a, inputs), a) == rec && !OutcomeOf(g, beh, Before(a, inputs), a).Asks?
    ensures WaveStep(g, beh, Initial(g, inputs), Later(a, inputs, rec))
  {
    hide Frontier;
    hide Gathered;
    hide Published;
    hide Initial;
    hide Takes;
    hide RecordAfter;
    hide OutcomeOf;
    Starts(g, a, e, inputs);
    Gathers(g, a, e, beh, inputs, rec);
    LaterFrontier(g, a, e, inputs, rec);
    assert Later(a, inputs, rec).ready[0..] == [H];
    assert FatalOf(Between(a, inputs, rec).runs, [a]) == [];
  }

  // ------------------------------------------------------------ a routed failure

  function Failing(n: Id, c: Context): Outcome { if n == A then Throws(FAULT) else Returned(map[], None) }

  /** `a` fails, and its error edge leads to `h`. */
  function Routed(): Graph { Chain(A, RetryPolicy(Branch, map[], "error"), Some("error")) }

  function Recovered(inputs: Outputs): State {
    var error := map["error" := ErrorText(FAULT)];
    Later(A, inputs, NodeRun(NodeStatus.Failed, Some(1), error, Some("error"), Some(FAULT), true))
  }

  lemma FailureRouted(inputs: Outputs)
    ensures RecordAfter(Routed(), Failing, Before(A, inputs), A) == Recovered(inputs).runs[A]
  {
    assert Edge(A, H, Some("error")) in Routed().edges;
    assert Labels(Routed(), A) == {"error"};
  }

  lemma RestoredWithout(g: Graph, s: State)
    requires A in g.nodes && A in s.runs && s.runs[A].status.Failed?
    ensures A !in ContextOf(g, Restore(g, Save(s)), H).upstream
  {}

  /** A run that is saved now and restored does not show `h` the error it was to handle. */
  lemma RecoveredFailureForgotten(inputs: Outputs)
    ensures Routed().Valid()
    ensures WaveStep(Routed(), Failing, Initial(Routed(), inputs), Recovered(inputs))
    ensures A in ContextOf(Routed(), Recovered(inputs), H).upstream
    ensures A !in ContextOf(Routed(), Restore(Routed(), Save(Recovered(inputs))), H).upstream
  {
    hide WaveStep;
    hide Initial;
    hide Restore;
    var g, e := Routed(), Edge(A, H, Some("error"));
    assert A != H by { assert A.name[0] == 'a' && H.name[0] == 'h'; }
    ChainIsPair(A, RetryPolicy(Branch, map[], "error"), Some("error"));
    FailureRouted(inputs);
    FirstWave(g, A, e, Failing, inputs, Recovered(inputs).runs[A]);
    RestoredWithout(g, Recovered(inputs));
    assert g.HasEdge(A, H);
  }

  // ------------------------------------------------------------ a node with the id of the run's inputs

  /** A node called `inputs`, and one behind it. */
  function Shadowed(): Graph { Chain(RUN_NAMESPACE, RetryPolicy(Fail, map[], "error"), None) }

  /** Every node returns `outputs`. */
  function Returning(outputs: Outputs): Behaviour { (n, c) => Returned(outputs, None) }

  function Overwritten(inputs: Outputs, outputs: Outputs): State {
    Later(RUN_NAMESPACE, inputs, NodeRun(Completed, Some(1), outputs, None, None, false))
  }

  lemma RestoredInputs(g: Graph, s: State, n: Id)
    ensures ContextOf(g, Restore(g, Save(s)), n).pool[RUN_NAMESPACE] == s.inputs
  {}

  /** Its outputs have taken the place of the run's inputs in the pool; after a restore `h` sees the run's
      inputs there instead. */
  lemma ShadowedInputsRestored(inputs: Outputs, outputs: Outputs)
    requires outputs != inputs
    ensures Shadowed().Valid()
    ensures WaveStep(Shadowed(), Returning(outputs), Initial(Shadowed(), inputs), Overwritten(inputs, outputs))
    ensures ContextOf(Shadowed(), Overwritten(inputs, outputs), H).pool[RUN_NAMESPACE] == outputs
    ensures var restored := Restore(Shadowed(), Save(Overwritten(inputs, outputs)));
            ContextOf(Shadowed(), restored, H).pool[RUN_NAMESPACE] != outputs
  {
    hide WaveStep;
    hide Initial;
    hide Restore;
    var g, s := Shadowed(), Overwritten(inputs, outputs);
    assert RUN_NAMESPACE != H by { assert RUN_NAMESPACE.name[0] == 'i' && H.name[0] == 'h'; }
    ChainIsPair(RUN_NAMESPACE, RetryPolicy(Fail, map[], "error"), None);
    FirstWave(g, RUN_NAMESPACE, Edge(RUN_NAMESPACE, H, None), Returning(outputs), inputs, s.runs[RUN_NAMESPACE]);
    RestoredInputs(g, s, H);
  }
}
