/** A wave wider than every level of its graph: an error handler that is not needed sets the nodes behind
    it free before their level. */
module WideWave {
  import opened Wrappers
  import opened Ordering
  import opened Graphs
  import opened Engine
  import opened Levels

  const A := Id("a")
  const B := Id("b")
  const C := Id("c")
  const H := Id("h")
  const V := Id("v")

  /** `a` leads to `b`, `c` and `v`, and on failure to its handler `h`; behind `h` come `b` and `c`. */
  function Handled(): Graph {
    var routed, plain := RetryPolicy(Branch, map[], "error"), RetryPolicy(Fail, map[], "error");
    Graph([A, B, C, H, V],
          map[A := NodeSpec(A, routed), B := NodeSpec(B, plain), C := NodeSpec(C, plain),
              H := NodeSpec(H, plain), V := NodeSpec(V, plain)],
          [Edge(A, H, Some("error")), Edge(A, B, None), Edge(A, C, None), Edge(A, V, None),
           Edge(H, B, None), Edge(H, C, None)])
  }

  predicate IsEdge(e: Edge) {
    || e == Edge(A, H, Some("error"))
    || (e.source == A && e.branch.None? && e.target in {B, C, V})
    || (e.source == H && e.branch.None? && e.target in {B, C})
  }

  /** All that matters of the graph. */
  ghost predicate Wide(g: Graph) {
    && g.Valid() && g.nodes.Keys == {A, B, C, H, V}
    && (forall e :: e in g.edges <==> IsEdge(e))
    && g.nodes[A].retry == RetryPolicy(Branch, map[], "error")
    && A != B && A != C && A != H && A != V && B != C && B != H && B != V && C != H && C != V && H != V
  }

  lemma Names()
    ensures A != B && A != C && A != H && A != V && B != C && B != H && B != V && C != H && C != V && H != V
  {
    assert A.name[0] == 'a' && B.name[0] == 'b' && C.name[0] == 'c' && H.name[0] == 'h' && V.name[0] == 'v';
  }

  lemma HandledEdges(e: Edge)
    ensures e in Handled().edges <==> IsEdge(e)
  {
    var edges := Handled().edges;
    assert edges[0] == Edge(A, H, Some("error")) && edges[1] == Edge(A, B, None) && edges[2] == Edge(A, C, None);
    assert edges[3] == Edge(A, V, None) && edges[4] == Edge(H, B, None) && edges[5] == Edge(H, C, None);
  }

  lemma HandledOnce()
    ensures Distinct(Handled().edges)
  {
    Names();
  }

  lemma HandledValid()
    ensures Handled().Valid()
  {
    Names();
    HandledOnce();
    var g := Handled();
    assert g.nodes.Keys == {A, B, C, H, V} && g.ids == [A, B, C, H, V];
    hide Handled;
    assert g.nodes.Keys == set n | n in g.ids;
    forall e | e in g.edges ensures IsEdge(e) { HandledEdges(e); }
  }

  lemma HandledIsWide()
    ensures Wide(Handled())
  {
    assert Handled().nodes.Keys == {A, B, C, H, V} && Handled().nodes[A].retry == RetryPolicy(Branch, map[], "error");
    Names();
    HandledValid();
    hide Handled;
    forall e ensures e in Handled().edges <==> IsEdge(e) { HandledEdges(e); }
  }

  // ------------------------------------------------------------ no level has more than two nodes

  function Depth(n: Id): nat { if n == A then 0 else if n == H || n == V then 1 else 2 }

  lemma {:induction false} DepthIsLevel(g: Graph, n: Id, k: nat)
    requires Wide(g) && n in g.nodes
    ensures EndsPath(g, n, k) <==> k <= Depth(n)
    decreases k
  {
    if k > 0 {
      DepthIsLevel(g, A, k - 1);
      DepthIsLevel(g, H, k - 1);
      assert n != A ==> Edge(A, n, if n == H then Some("error") else None) in g.edges;
      assert n == B || n == C ==> Edge(H, n, None) in g.edges;
    }
  }

  lemma TwoPerLevel(g: Graph, k: nat)
    requires Wide(g)
    ensures |LevelOf(g, k)| <= 2
  {
    var pair := if k == 0 then {A} else if k == 1 then {H, V} else {B, C};
    forall n | n in LevelOf(g, k) ensures n in pair {
      DepthIsLevel(g, n, k);
      DepthIsLevel(g, n, k + 1);
    }
    SubsetCardinality(LevelOf(g, k), pair);
  }

  // ------------------------------------------------------------ one wave

  function Quiet(n: Id, c: Context): Outcome { Returned(map[], None) }

  /** After the wave of `a`: its handler is skipped, and that sets `b` and `c` free beside `v`. */
  function Freed(inputs: Outputs): State {
    State(inputs, map[RUN_NAMESPACE := inputs, A := map[]],
          map[A := 0, B := 0, C := 0, H := 0, V := 0], map[A := 0, B := 1, C := 1, H := 0, V := 1],
          map[A := NodeRun(Completed, Some(1), map[], None, None, false),
              H := FRESH.(status := Skipped, wave := Some(1)),
              B := FRESH, C := FRESH, V := FRESH],
          map[A := map[]], [B, C, V], 1, [], map[])
  }

  ghost predicate FreedRuns(runs: map<Id, NodeRun>) {
    && runs.Keys == {A, B, C, H, V}
    && runs[A] == NodeRun(Completed, Some(1), map[], None, None, false)
    && runs[H] == FRESH.(status := Skipped, wave := Some(1))
    && runs[B] == FRESH && runs[C] == FRESH && runs[V] == FRESH
  }

  lemma FreedEdges(g: Graph, runs: map<Id, NodeRun>, n: Id)
    requires Wide(g) && FreedRuns(runs) && n in g.nodes
    ensures Uncounted(g, runs, {}, n) == {}
    ensures TakenIn(g, runs, {}, n) == if n in {B, C, V} then {Edge(A, n, None)} else {}
    ensures g.In(n) == {} <==> n == A
  {
    assert n in {B, C, V} ==> Edge(A, n, None) in g.In(n);
    assert n == H ==> Edge(A, H, Some("error")) in g.In(n);
  }

  lemma FreedNode(g: Graph, s: State, n: Id)
    requires Wide(g) && FreedRuns(s.runs) && n in g.nodes && Domains(g, s)
    requires s.pending[n] == 0 && s.taken[n] == (if n in {B, C, V} then 1 else 0)
    ensures Exact(g, s, {}, n) && Placed(g, s, {B, C, V}, {}, n)
  {
    FreedEdges(g, s.runs, n);
    hide Uncounted;
    hide TakenIn;
    hide IsEdge;
  }

  lemma FreedCalm(inputs: Outputs)
    ensures Calm(Freed(inputs))
  {
    Names();
    var s := Freed(inputs);
    assert (set n | n in s.runs && s.runs[n].status.Paused?) == {};
  }

  lemma FreedFrontier(g: Graph, inputs: Outputs)
    requires Wide(g)
    ensures Frontier(g, Freed(inputs))
  {
    hide Exact;
    hide Placed;
    hide IsEdge;
    hide Calm;
    FreedCalm(inputs);
    var s := Freed(inputs);
    assert FreedRuns(s.runs);
    assert Elements(s.ready) == {B, C, V};
    forall n | n in g.nodes ensures Exact(g, s, {}, n) && Placed(g, s, Elements(s.ready), {}, n) { FreedNode(g, s, n); }
  }

  function Start(inputs: Outputs): State {
    State(inputs, map[RUN_NAMESPACE := inputs],
          map[A := 0, B := 2, C := 2, H := 1, V := 1], map[A := 0, B := 0, C := 0, H := 0, V := 0],
          map[A := FRESH, B := FRESH, C := FRESH, H := FRESH, V := FRESH], map[], [A], 0, [], map[])
  }

  lemma CountIs(g: Graph, n: Id, found: set<Edge>)
    requires Wide(g) && n in g.nodes && forall e :: e in found <==> IsEdge(e) && e.target == n
    ensures |g.Predecessors(n)| == |found|
  {
    hide IsEdge;
    TargetedElements(g.edges, n);
    DistinctCardinality(g.Predecessors(n));
    assert found == set e | e in g.Predecessors(n);
  }

  lemma Counts(g: Graph)
    requires Wide(g)
    ensures |g.Predecessors(A)| == 0 && |g.Predecessors(H)| == 1 && |g.Predecessors(V)| == 1
    ensures |g.Predecessors(B)| == 2 && |g.Predecessors(C)| == 2
  {
    hide Graph.Predecessors;
    CountIs(g, A, {});
    CountIs(g, H, {Edge(A, H, Some("error"))});
    CountIs(g, V, {Edge(A, V, None)});
    CountIs(g, B, {Edge(A, B, None), Edge(H, B, None)});
    CountIs(g, C, {Edge(A, C, None), Edge(H, C, None)});
  }

  lemma Alone(roots: seq<Id>)
    requires Distinct(roots) && forall n :: n in roots <==> n == A
    ensures roots == [A]
  {
    DistinctCardinality(roots);
    assert (set n | n in roots) == {A};
    assert roots[0] in roots;
  }

  lemma OnlyRoot(g: Graph)
    requires Wide(g)
    ensures Sorted(g.Roots()) == [A]
  {
    hide Graph.Roots;
    hide Graph.Predecessors;
    hide Sorted;
    RootElements(g);
    SortedDistinct(g.Roots());
    forall n | n in g.nodes ensures g.In(n) == {} <==> n == A {
      assert n != A ==> Edge(A, n, if n == H then Some("error") else None) in g.In(n);
    }
    Alone(Sorted(g.Roots()));
  }

  lemma FirstCounts(g: Graph, inputs: Outputs)
    requires Wide(g)
    ensures Initial(g, inputs).pending == Start(inputs).pending
  {
    hide IsEdge;
    Counts(g);
    hide Graph.Predecessors;
    hide Graph.Roots;
    hide Sorted;
  }

  lemma FirstRecords(g: Graph, inputs: Outputs)
    requires g.nodes.Keys == {A, B, C, H, V}
    ensures Initial(g, inputs).taken == Start(inputs).taken && Initial(g, inputs).runs == Start(inputs).runs
  {
    hide Graph.Predecessors;
    hide Graph.Roots;
    hide Sorted;
  }

  lemma Starts(g: Graph, inputs: Outputs)
    requires Wide(g)
    ensures Initial(g, inputs) == Start(inputs)
  {
    hide IsEdge;
    hide Graph.Predecessors;
    hide Graph.Roots;
    hide Sorted;
    OnlyRoot(g);
    FirstCounts(g, inputs);
    FirstRecords(g, inputs);
    hide Wide;
    var s, t := Initial(g, inputs), Start(inputs);
    assert s == t.(pending := s.pending, taken := s.taken, runs := s.runs);
  }

  /** The wave's output is out, its edges not yet counted down. */
  function Midwave(inputs: Outputs): State {
    Freed(inputs).(ready := [], pending := Start(inputs).pending, taken := Start(inputs).taken,
                   runs := Start(inputs).runs[A := Freed(inputs).runs[A]])
  }

  lemma Gathers(g: Graph, inputs: Outputs)
    requires Wide(g)
    ensures Published(Gathered(g, Quiet, Start(inputs)), [A]) == Midwave(inputs)
  {
    hide Distinct;
    hide Frontier;
    hide IsEdge;
    var s, t := Start(inputs), Midwave(inputs);
    var mid := Gathered(g, Quiet, s);
    assert mid.runs == t.runs && mid.awaiting == map[];
    assert RanOf(mid.runs, [A]) == map[A := map[]];
    assert s.completed + map[A := map[]] == t.completed && s.pool + map[A := map[]] == t.pool;
  }

  lemma InOrder()
    ensures Ascending([B, C, V])
  {}

  lemma Drains(g: Graph, inputs: Outputs)
    requires Wide(g)
    ensures Drained(g, Midwave(inputs), Freed(inputs)) && FatalOf(Midwave(inputs).runs, [A]) == []
  {
    hide Frontier;
    hide IsEdge;
    hide Ascending;
    FreedFrontier(g, inputs);
    hide Wide;
    InOrder();
    assert Freed(inputs).ready[0..] == [B, C, V];
  }

  /** One wave from the start, and three nodes are due at once, while no level has more than two. */
  lemma WiderThanEveryLevel(inputs: Outputs)
    ensures Handled().Valid()
    ensures WaveStep(Handled(), Quiet, Initial(Handled(), inputs), Freed(inputs))
    ensures |Freed(inputs).ready| == 3 && forall k: nat :: |LevelOf(Handled(), k)| <= 2
  {
    hide Drained;
    hide Gathered;
    hide Published;
    hide FatalOf;
    hide LevelOf;
    hide Handled;
    HandledIsWide();
    Starts(Handled(), inputs);
    Gathers(Handled(), inputs);
    Drains(Handled(), inputs);
    forall k: nat ensures |LevelOf(Handled(), k)| <= 2 { TwoPerLevel(Handled(), k); }
  }
}
