/** Building and decomposing a graph: the constructor's checks, Kahn's algorithm and the
    static levels. */
module GraphBuild {
  import opened Wrappers
  import opened Ordering
  import opened Graphs
  import opened Levels

  datatype Role = Source | Target

  datatype GraphError =
    | DuplicateNode(id: Id)
    | NoNodes
    | UnknownEndpoint(edge: Edge, role: Role)
    | SelfLoop(id: Id)
    | DuplicateEdge(edge: Edge)
    | Cycle(nodes: seq<Id>)

  ghost function Elements(s: seq<Id>): set<Id> { set x | x in s }

  // ------------------------------------------------------------ Kahn's algorithm

  /** Every edge into a listed node starts at a node listed before it. */
  ghost predicate Forward(g: Graph, order: seq<Id>) {
    forall j, e :: 0 <= j < |order| && e in g.edges && e.target == order[j] ==> e.source in order[..j]
  }

  /** The innermost loop shared by `topological_order` and `waves`. */
  method CountDown(pending0: map<Id, int>, targets: seq<Id>) returns (pending: map<Id, int>, hit: seq<Id>)
    requires forall m :: m in targets ==> m in pending0
    ensures pending.Keys == pending0.Keys
            && forall m :: m in pending0 ==> pending[m] == pending0[m] - multiset(targets)[m]
    ensures Distinct(hit) && forall m :: m in hit <==> m in pending0 && 0 < pending0[m] <= multiset(targets)[m]
  {
    pending, hit := pending0, [];
    for k := 0 to |targets|
      invariant pending.Keys == pending0.Keys
      invariant forall m :: m in pending0 ==> pending[m] == pending0[m] - multiset(targets[..k])[m]
      invariant Distinct(hit) && forall m :: m in hit <==> m in pending0 && 0 < pending0[m] <= multiset(targets[..k])[m]
    {
      var target := targets[k];
      assert targets[..k + 1] == targets[..k] + [target];
      pending := pending[target := pending[target] - 1];
      if pending[target] == 0 {
        hit := hit + [target];
      }
    }
    assert targets[..|targets|] == targets;
  }

  lemma {:induction false} ForwardAboveCycles(g: Graph, order: seq<Id>, j: nat)
    requires g.Valid() && Forward(g, order) && j < |order|
    ensures !BelowCycle(g, order[j])
    decreases j
  {
    if BelowCycle(g, order[j]) {
      var c :| c in g.nodes && g.Reaches(c, c) && (c == order[j] || g.Reaches(c, order[j]));
      var e := LastEdge(g, c, order[j]);
      var i :| 0 <= i < j && order[i] == e.source;
      ForwardAboveCycles(g, order, i);
      assert BelowCycle(g, order[i]);
    }
  }

  lemma AcyclicMeansNoneBelow(g: Graph)
    requires g.Valid()
    ensures g.Acyclic() <==> forall n :: n in g.nodes ==> !BelowCycle(g, n)
  {
    if !g.Acyclic() {
      var n :| n in g.nodes && g.Reaches(n, n);
      assert BelowCycle(g, n);
    }
  }

  function Positive(ids: seq<Id>, pending: map<Id, int>): seq<Id> {
    if ids == [] then []
    else (if ids[0] in pending && pending[ids[0]] > 0 then [ids[0]] else []) + Positive(ids[1..], pending)
  }

  lemma {:induction false} PositiveElements(ids: seq<Id>, pending: map<Id, int>)
    ensures forall n :: n in Positive(ids, pending) <==> n in ids && n in pending && pending[n] > 0
    ensures Distinct(ids) ==> Distinct(Positive(ids, pending))
  {
    if ids != [] { PositiveElements(ids[1..], pending); }
  }

  /** A linear order of all nodes in which every edge points forward. */
  ghost predicate Topological(g: Graph, order: seq<Id>) {
    Distinct(order) && Elements(order) == g.nodes.Keys && Forward(g, order)
  }

  ghost predicate Turning(g: Graph, pending: map<Id, int>, order: seq<Id>, ready: seq<Id>) {
    Kahn(g, pending, Elements(order), Elements(ready)) && Distinct(order) && Distinct(ready) && Forward(g, order)
  }

  /** `topological_order`. The nodes a `CycleError` names are those at or below a cycle. */
  method TopologicalOrder(g: Graph) returns (r: Result<seq<Id>, seq<Id>>)
    requires g.Valid()
    ensures r.Success? <==> g.Acyclic()
    ensures r.Success? ==> Topological(g, r.value)
    ensures r.Failure? ==> Ascending(r.error) && Distinct(r.error)
                           && forall n :: n in r.error <==> n in g.nodes && BelowCycle(g, n)
  {
    var pending, ready := map n | n in g.nodes :: |g.Predecessors(n)|, Sorted(g.Roots());
    var order: seq<Id> := [];
    KahnBegin(g, pending, ready);
    while ready != []
      invariant Turning(g, pending, order, ready)
      decreases g.nodes.Keys - Elements(order)
    {
      var n := ready[0];
      var targets := Sorted(Targets(g.Successors(n)));
      SuccessorTargets(g, n);
      var hit;
      ghost var pending0 := pending;
      pending, hit := CountDown(pending, targets);
      KahnTurn(g, pending0, order, ready, pending, hit);
      order := order + [n];
      ready := ready[1..] + hit;
    }
    KahnEnd(g, pending, order);
    if |order| < |g.nodes| {
      r := Failure(Sorted(Positive(g.ids, pending)));
    } else {
      r := Success(order);
    }
  }

  lemma KahnBegin(g: Graph, pending: map<Id, int>, ready: seq<Id>)
    requires g.Valid() && pending == (map n | n in g.nodes :: |g.Predecessors(n)|) && ready == Sorted(g.Roots())
    ensures Turning(g, pending, [], ready)
  {
    assert Distinct(ready) && forall n :: n in Elements(ready) <==> n in g.nodes && g.In(n) == {} by {
      RootElements(g);
      SortedDistinct(g.Roots());
    }
    forall n | n in g.nodes ensures n in Elements(ready) <==> pending[n] == 0 {
      IndegreeCounts(g, n);
    }
    KahnStart(g, pending, Elements(ready));
    assert Elements([]) == {};
  }

  lemma SuccessorTargets(g: Graph, n: Id)
    requires g.Valid()
    ensures forall m :: m in Sorted(Targets(g.Successors(n))) ==> m in g.nodes
    ensures multiset(Sorted(Targets(g.Successors(n)))) == multiset(Targets(g.Successors(n)))
  {
    SourcedElements(g.edges, n);
    forall m | m in Sorted(Targets(g.Successors(n))) ensures m in g.nodes {
      assert m in multiset(Sorted(Targets(g.Successors(n))));
      assert m in Targets(g.Successors(n));
    }
  }

  /** One turn: the head of the queue is appended to the order, its hits to the queue. */
  /** The queue after its head has gone and the new nodes have come. */
  lemma QueueTurns(ready: seq<Id>, hit: seq<Id>)
    requires ready != [] && Distinct(ready) && Distinct(hit) && Elements(ready) !! Elements(hit)
    ensures Elements(ready[1..] + hit) == Elements(ready) - {ready[0]} + Elements(hit)
    ensures Distinct(ready[1..] + hit)
  {
    assert ready == [ready[0]] + ready[1..];
    forall i, j | 0 <= i < |ready[1..]| && 0 <= j < |hit| ensures ready[1..][i] != hit[j] {
      assert ready[1..][i] in Elements(ready) && hit[j] in Elements(hit);
    }
  }

  lemma KahnTurn(g: Graph, pending0: map<Id, int>, order: seq<Id>, ready: seq<Id>, pending: map<Id, int>, hit: seq<Id>)
    requires g.Valid() && ready != [] && Turning(g, pending0, order, ready) && Distinct(hit)
    requires var counts := multiset(Targets(g.Successors(ready[0])));
             && pending.Keys == pending0.Keys
             && (forall m :: m in pending0 ==> pending[m] == pending0[m] - counts[m])
             && forall m :: m in hit <==> m in pending0 && 0 < pending0[m] <= counts[m]
    ensures Turning(g, pending, order + [ready[0]], ready[1..] + hit)
    ensures g.nodes.Keys - Elements(order + [ready[0]]) < g.nodes.Keys - Elements(order)
  {
    hide KahnNode;
    hide Forward;
    var n := ready[0];
    assert n in Elements(ready);
    NotYetDone(g, pending0, Elements(order), Elements(ready), n);
    KahnPop(g, pending0, Elements(order), Elements(ready), n, pending, Elements(hit));
    QueueTurns(ready, hit);
    ForwardGrows(g, pending0, order, ready, n);
    assert Elements(order + [n]) == Elements(order) + {n};
    assert Distinct(order + [n]) by { assert n !in Elements(order); }
  }

  lemma NotYetDone(g: Graph, pending: map<Id, int>, done: set<Id>, queued: set<Id>, n: Id)
    requires Kahn(g, pending, done, queued) && n in queued
    ensures n in g.nodes && n !in done
  {
    assert KahnNode(g, pending, done, queued, n);
  }

  lemma ForwardGrows(g: Graph, pending: map<Id, int>, order: seq<Id>, ready: seq<Id>, n: Id)
    requires Kahn(g, pending, Elements(order), Elements(ready)) && Forward(g, order) && n in ready
    ensures Forward(g, order + [n])
  {
    assert n in Elements(ready);
    assert KahnNode(g, pending, Elements(order), Elements(ready), n);
    assert Waiting(g, Elements(order), n) == {};
    var longer := order + [n];
    forall j, e | 0 <= j < |longer| && e in g.edges && e.target == longer[j] ensures e.source in longer[..j] {
      if j < |order| {
        assert longer[..j] == order[..j];
      } else {
        assert longer[..j] == order && e !in Waiting(g, Elements(order), n);
      }
    }
  }

  lemma KahnEnd(g: Graph, pending: map<Id, int>, order: seq<Id>)
    requires g.Valid() && Turning(g, pending, order, [])
    ensures |order| < |g.nodes| <==> !g.Acyclic()
    ensures |order| >= |g.nodes| ==> Topological(g, order)
    ensures var stuck := Sorted(Positive(g.ids, pending));
            Ascending(stuck) && Distinct(stuck) && forall n :: n in stuck <==> n in g.nodes && BelowCycle(g, n)
  {
    assert Elements([]) == {};
    PositiveElements(g.ids, pending);
    SortedDistinct(Positive(g.ids, pending));
    KahnVerdict(g, pending, order);
  }

  lemma KahnVerdict(g: Graph, pending: map<Id, int>, order: seq<Id>)
    requires g.Valid() && Kahn(g, pending, Elements(order), {}) && Distinct(order) && Forward(g, order)
    ensures forall n :: n in g.nodes ==> (pending[n] > 0 <==> BelowCycle(g, n))
    ensures |order| < |g.nodes| <==> !g.Acyclic()
    ensures |order| >= |g.nodes| ==> Elements(order) == g.nodes.Keys
  {
    forall m | m in Elements(order) ensures !BelowCycle(g, m) {
      var j :| 0 <= j < |order| && order[j] == m;
      ForwardAboveCycles(g, order, j);
    }
    forall n | n in g.nodes
      ensures (pending[n] > 0 <==> BelowCycle(g, n)) && (pending[n] > 0 <==> n !in Elements(order))
    {
      StuckNodes(g, pending, Elements(order), n);
    }
    AcyclicMeansNoneBelow(g);
    DistinctCardinality(order);
    assert |g.nodes| == |g.nodes.Keys|;
    if g.Acyclic() {
      assert Elements(order) == g.nodes.Keys;
    } else {
      var n :| n in g.nodes && BelowCycle(g, n);
      StrictSubset(Elements(order), g.nodes.Keys, n);
    }
  }

  // ------------------------------------------------------------ static levels

  ghost predicate LevelsSoFar(g: Graph, levels: seq<seq<Id>>, flat: seq<Id>) {
    && (forall n :: n in flat <==> n in g.nodes && !EndsPath(g, n, |levels|))
    && forall k :: 0 <= k < |levels| ==> IsLevel(g, levels[k], k)
  }

  ghost predicate IsLevel(g: Graph, level: seq<Id>, k: nat) {
    level != [] && Ascending(level) && Distinct(level) && forall n :: n in level <==> AtLevel(g, n, k)
  }

  /** The queue between two rounds is the next level. */
  lemma QueueIsLevel(g: Graph, pending: map<Id, int>, levels: seq<seq<Id>>, flat: seq<Id>, queue: seq<Id>, n: Id)
    requires g.Valid() && Turning(g, pending, flat, queue) && LevelsSoFar(g, levels, flat)
    ensures n in queue <==> AtLevel(g, n, |levels|)
  {
    var k := |levels|;
    if n in g.nodes {
      assert KahnNode(g, pending, Elements(flat), Elements(queue), n);
      assert Waiting(g, Elements(flat), n) == {} <==> !EndsPath(g, n, k + 1) by {
        forall e | e in g.edges && e.target == n
          ensures e in Waiting(g, Elements(flat), n) <==> EndsPath(g, e.source, k)
        {}
        if Waiting(g, Elements(flat), n) != {} { var e :| e in Waiting(g, Elements(flat), n); }
      }
      assert n in queue <==> n in Elements(queue);
    }
    EndsPathNode(g, n, k);
    assert n in queue ==> n in Elements(queue);
  }

  lemma EndsPathNode(g: Graph, n: Id, k: nat)
    requires g.Valid()
    ensures EndsPath(g, n, k) ==> n in g.nodes
  {}

  lemma NextLevels(g: Graph, levels: seq<seq<Id>>, flat: seq<Id>, level: seq<Id>)
    requires g.Valid() && LevelsSoFar(g, levels, flat) && IsLevel(g, level, |levels|)
    requires forall n :: n in level ==> n in g.nodes
    ensures LevelsSoFar(g, levels + [level], flat + level)
  {
    hide EndsPath;
    var k := |levels|;
    forall n ensures n in flat + level <==> n in g.nodes && !EndsPath(g, n, k + 1) {
      if n in g.nodes && EndsPath(g, n, k + 1) { ShorterPath(g, n, k); }
    }
  }

  /** Inside a round: the first `i` nodes of the frontier have counted down their targets. */
  ghost predicate InRound(g: Graph, pending: map<Id, int>, flat: seq<Id>, frontier: seq<Id>, i: nat, next: seq<Id>)
    requires i <= |frontier|
  {
    Turning(g, pending, flat + frontier[..i], frontier[i..] + next)
  }

  lemma RoundStep(g: Graph, pending0: map<Id, int>, flat: seq<Id>, frontier: seq<Id>, i: nat, next: seq<Id>,
                  pending: map<Id, int>, hit: seq<Id>)
    requires g.Valid() && i < |frontier| && InRound(g, pending0, flat, frontier, i, next) && Distinct(hit)
    requires var counts := multiset(Targets(g.Successors(frontier[i])));
             && pending.Keys == pending0.Keys
             && (forall m :: m in pending0 ==> pending[m] == pending0[m] - counts[m])
             && forall m :: m in hit <==> m in pending0 && 0 < pending0[m] <= counts[m]
    ensures InRound(g, pending, flat, frontier, i + 1, next + hit)
  {
    hide Turning;
    hide Targets;
    hide Graph.Valid;
    var queue := frontier[i..] + next;
    assert queue[0] == frontier[i];
    KahnTurn(g, pending0, flat + frontier[..i], queue, pending, hit);
    assert queue[1..] + hit == frontier[i + 1..] + (next + hit);
    assert flat + frontier[..i] + [frontier[i]] == flat + frontier[..i + 1];
  }

  /** One level: every node of the frontier counts down its targets. */
  method Round(g: Graph, pending0: map<Id, int>, ghost flat: seq<Id>, frontier: seq<Id>)
    returns (pending: map<Id, int>, next: seq<Id>)
    requires g.Valid() && Turning(g, pending0, flat, frontier)
    ensures Turning(g, pending, flat + frontier, next)
  {
    pending, next := pending0, [];
    assert flat + frontier[..0] == flat && frontier[0..] + next == frontier;
    for i := 0 to |frontier|
      invariant InRound(g, pending, flat, frontier, i, next)
    {
      var targets := Targets(g.Successors(frontier[i]));
      assert forall m :: m in targets ==> m in g.nodes by { SourcedElements(g.edges, frontier[i]); }
      var counted, hit := CountDown(pending, targets);
      RoundStep(g, pending, flat, frontier, i, next, counted, hit);
      pending, next := counted, next + hit;
    }
    assert frontier[..|frontier|] == frontier && frontier[|frontier|..] + next == next;
  }

  /** Between two rounds: the levels found so far, and the next one waiting, sorted. */
  ghost predicate Between(g: Graph, pending: map<Id, int>, levels: seq<seq<Id>>, flat: seq<Id>, frontier: seq<Id>) {
    Turning(g, pending, flat, frontier) && LevelsSoFar(g, levels, flat) && Ascending(frontier)
  }

  lemma NextRound(g: Graph, levels: seq<seq<Id>>, flat: seq<Id>, frontier: seq<Id>, pending0: map<Id, int>,
                  pending: map<Id, int>, next: seq<Id>)
    requires g.Valid() && frontier != [] && Between(g, pending0, levels, flat, frontier)
    requires Turning(g, pending, flat + frontier, next)
    ensures Between(g, pending, levels + [frontier], flat + frontier, Sorted(next))
    ensures g.nodes.Keys - Elements(flat + frontier) < g.nodes.Keys - Elements(flat)
  {
    LevelFound(g, pending0, levels, flat, frontier);
    SortedQueue(g, pending, flat + frontier, next);
    assert frontier[0] in Elements(frontier);
    assert KahnNode(g, pending0, Elements(flat), Elements(frontier), frontier[0]);
    assert Elements(flat + frontier) == Elements(flat) + Elements(frontier);
  }

  lemma FirstRound(g: Graph, pending: map<Id, int>, frontier: seq<Id>)
    requires g.Valid() && pending == (map n | n in g.nodes :: |g.Predecessors(n)|) && frontier == Sorted(g.Roots())
    ensures Between(g, pending, [], [], frontier)
  {
    KahnBegin(g, pending, frontier);
  }

  /** `waves`: level k holds, in order, the nodes whose longest incoming path has k edges. */
  method Waves(g: Graph) returns (r: Result<seq<seq<Id>>, seq<Id>>)
    requires g.Valid()
    ensures r.Success? <==> g.Acyclic()
    ensures r.Success? ==> (forall k :: 0 <= k < |r.value| ==> IsLevel(g, r.value[k], k))
    ensures r.Success? ==> forall n :: n in g.nodes ==> exists k :: 0 <= k < |r.value| && AtLevel(g, n, k)
    ensures r.Failure? ==> forall n :: n in r.error <==> n in g.nodes && BelowCycle(g, n)
  {
    var pending, frontier := map n | n in g.nodes :: |g.Predecessors(n)|, Sorted(g.Roots());
    var levels: seq<seq<Id>>, settled := [], 0;
    ghost var flat: seq<Id> := [];
    FirstRound(g, pending, frontier);
    while frontier != []
      invariant Between(g, pending, levels, flat, frontier)
      invariant settled == |flat|
      decreases g.nodes.Keys - Elements(flat)
    {
      levels, settled := levels + [frontier], settled + |frontier|;
      var counted, next := Round(g, pending, flat, frontier);
      NextRound(g, levels[..|levels| - 1], flat, frontier, pending, counted, next);
      flat := flat + frontier;
      pending, frontier := counted, Sorted(next);
    }
    KahnEnd(g, pending, flat);
    if settled < |g.nodes| {
      r := Failure(Sorted(Positive(g.ids, pending)));
    } else {
      LevelsCover(g, levels, flat);
      r := Success(levels);
    }
  }

  lemma LevelFound(g: Graph, pending: map<Id, int>, levels: seq<seq<Id>>, flat: seq<Id>, frontier: seq<Id>)
    requires g.Valid() && Turning(g, pending, flat, frontier) && LevelsSoFar(g, levels, flat)
    requires frontier != [] && Ascending(frontier)
    ensures LevelsSoFar(g, levels + [frontier], flat + frontier)
  {
    forall n ensures n in frontier <==> AtLevel(g, n, |levels|) { QueueIsLevel(g, pending, levels, flat, frontier, n); }
    assert forall n :: n in frontier ==> n in Elements(frontier);
    NextLevels(g, levels, flat, frontier);
  }

  lemma SortedQueue(g: Graph, pending: map<Id, int>, flat: seq<Id>, next: seq<Id>)
    requires Turning(g, pending, flat, next)
    ensures Turning(g, pending, flat, Sorted(next)) && Ascending(Sorted(next))
  {
    SortedDistinct(next);
    assert Elements(Sorted(next)) == Elements(next);
  }

  lemma LevelsCover(g: Graph, levels: seq<seq<Id>>, flat: seq<Id>)
    requires g.Valid() && LevelsSoFar(g, levels, flat) && Elements(flat) == g.nodes.Keys
    ensures forall n :: n in g.nodes ==> exists k :: 0 <= k < |levels| && AtLevel(g, n, k)
  {
    forall n | n in g.nodes ensures exists k :: 0 <= k < |levels| && AtLevel(g, n, k) {
      assert n in Elements(flat);
      var k := LastLevel(g, n, |levels|);
    }
  }

  lemma {:induction false} LastLevel(g: Graph, n: Id, bound: nat) returns (k: nat)
    requires n in g.nodes && !EndsPath(g, n, bound)
    ensures k < bound && AtLevel(g, n, k)
    decreases bound
  {
    if EndsPath(g, n, bound - 1) {
      k := bound - 1;
    } else {
      k := LastLevel(g, n, bound - 1);
    }
  }

  // ------------------------------------------------------------ the widest level

  lemma LevelElements(g: Graph, level: seq<Id>, k: nat)
    requires g.Valid() && IsLevel(g, level, k)
    ensures |LevelOf(g, k)| == |level|
  {
    forall n | n in level ensures n in g.nodes { assert EndsPath(g, n, k); EndsPathNode(g, n, k); }
    assert LevelOf(g, k) == set n | n in level;
    DistinctCardinality(level);
  }

  /** A node of a level is one of the levels found. */
  lemma LevelFoundAt(g: Graph, levels: seq<seq<Id>>, k: nat)
    requires g.Valid() && forall i :: 0 <= i < |levels| ==> IsLevel(g, levels[i], i)
    requires forall n :: n in g.nodes ==> exists i :: 0 <= i < |levels| && AtLevel(g, n, i)
    requires k >= |levels|
    ensures LevelOf(g, k) == {}
  {
    forall n | n in LevelOf(g, k) ensures false {
      var i :| 0 <= i < |levels| && AtLevel(g, n, i);
      ShorterPaths(g, n, i + 1, k);
    }
  }

  /** `max_width`: the size of the widest level. */
  method MaxWidth(g: Graph) returns (r: Result<nat, seq<Id>>)
    requires g.Valid()
    ensures r.Success? <==> g.Acyclic()
    ensures r.Success? ==> Widest(g, r.value)
  {
    var levels :- Waves(g);
    var width: nat := 0;
    ghost var at: nat := 0;
    for i := 0 to |levels|
      invariant forall k :: 0 <= k < i ==> |levels[k]| <= width
      invariant i == 0 ==> width == 0
      invariant i > 0 ==> at < i && |levels[at]| == width
    {
      assert IsLevel(g, levels[i], i) && |levels[i]| > 0;
      if |levels[i]| > width {
        width, at := |levels[i]|, i;
      }
    }
    WidthFound(g, levels, width, at);
    r := Success(width);
  }

  lemma WidthFound(g: Graph, levels: seq<seq<Id>>, width: nat, at: nat)
    requires g.Valid() && forall i :: 0 <= i < |levels| ==> IsLevel(g, levels[i], i)
    requires forall n :: n in g.nodes ==> exists i :: 0 <= i < |levels| && AtLevel(g, n, i)
    requires forall k :: 0 <= k < |levels| ==> |levels[k]| <= width
    requires |levels| > 0 ==> at < |levels| && |levels[at]| == width
    ensures Widest(g, width)
  {
    hide AtLevel;
    assert g.ids[0] in g.nodes;
    LevelElements(g, levels[at], at);
    forall k: nat ensures |LevelOf(g, k)| <= width {
      if k < |levels| { LevelElements(g, levels[k], k); } else { LevelFoundAt(g, levels, k); }
    }
  }

  // ------------------------------------------------------------ the constructor

  function Ids(specs: seq<NodeSpec>): (ids: seq<Id>)
    ensures |ids| == |specs| && forall i :: 0 <= i < |specs| ==> ids[i] == specs[i].id
  {
    seq(|specs|, i requires 0 <= i < |specs| => specs[i].id)
  }

  ghost predicate EdgeOk(ids: seq<Id>, e: Edge) { e.source in ids && e.target in ids && e.source != e.target }

  ghost predicate EdgesOk(ids: seq<Id>, edges: seq<Edge>) {
    Distinct(edges) && forall e :: e in edges ==> EdgeOk(ids, e)
  }

  /** What is wrong with the definition, given that everything before the culprit is in order. */
  ghost predicate Defect(specs: seq<NodeSpec>, edges: seq<Edge>, error: GraphError) {
    var ids := Ids(specs);
    match error
    case DuplicateNode(id) => exists j :: 0 <= j < |ids| && ids[j] == id && id in ids[..j] && Distinct(ids[..j])
    case NoNodes => specs == []
    case UnknownEndpoint(e, role) =>
      && Distinct(ids) && (exists j :: 0 <= j < |edges| && edges[j] == e && EdgesOk(ids, edges[..j]))
      && if role.Source? then e.source !in ids else e.source in ids && e.target !in ids
    case SelfLoop(id) =>
      Distinct(ids) && id in ids && exists j ::
        0 <= j < |edges| && edges[j].source == id && edges[j].target == id && EdgesOk(ids, edges[..j])
    case DuplicateEdge(e) =>
      Distinct(ids) && EdgeOk(ids, e) && exists j ::
        0 <= j < |edges| && edges[j] == e && e in edges[..j] && EdgesOk(ids, edges[..j])
    case Cycle(stuck) =>
      && Distinct(ids) && EdgesOk(ids, edges) && Ascending(stuck) && Distinct(stuck)
      && exists g: Graph :: g.Valid() && g.ids == ids && g.edges == edges && !g.Acyclic()
           && forall n :: n in stuck <==> n in g.nodes && BelowCycle(g, n)
  }

  /** The constructor of `Graph`: a graph that exists is valid and acyclic, and otherwise the
      error names the first defect found. */
  method Build(specs: seq<NodeSpec>, edges: seq<Edge>) returns (r: Result<Graph, GraphError>)
    ensures r.Success? ==> r.value.Valid() && r.value.Acyclic() && r.value.ids == Ids(specs) && r.value.edges == edges
    ensures r.Success? ==> forall i :: 0 <= i < |specs| ==> r.value.nodes[specs[i].id] == specs[i]
    ensures r.Failure? ==> Defect(specs, edges, r.error)
  {
    var ids := Ids(specs);
    var nodes: map<Id, NodeSpec> := map[];
    for i := 0 to |specs|
      invariant nodes.Keys == Elements(ids[..i]) && Distinct(ids[..i])
      invariant forall j :: 0 <= j < i ==> ids[j] in nodes && nodes[ids[j]] == specs[j]
    {
      assert ids[..i + 1] == ids[..i] + [ids[i]];
      if specs[i].id in nodes {
        assert specs[i].id in ids[..i];
        return Failure(DuplicateNode(specs[i].id));
      }
      nodes := nodes[specs[i].id := specs[i]];
    }
    assert ids[..|specs|] == ids;
    assert specs != [] ==> ids[0] in nodes;
    if nodes == map[] {
      return Failure(NoNodes);
    }
    var problem := CheckEdges(specs, nodes, edges);
    if problem.Some? {
      return Failure(problem.value);
    }
    var g := Graph(ids, nodes, edges);
    assert g.Valid();
    var order := TopologicalOrder(g);
    if order.Failure? {
      return Failure(Cycle(order.error));
    }
    return Success(g);
  }

  method CheckEdges(specs: seq<NodeSpec>, nodes: map<Id, NodeSpec>, edges: seq<Edge>)
    returns (problem: Option<GraphError>)
    requires nodes.Keys == Elements(Ids(specs)) && Distinct(Ids(specs))
    ensures problem.None? ==> EdgesOk(Ids(specs), edges)
    ensures problem.Some? ==> Defect(specs, edges, problem.value)
  {
    ghost var ids := Ids(specs);
    var seen: set<Edge> := {};
    for j := 0 to |edges|
      invariant EdgesOk(ids, edges[..j]) && seen == set e | e in edges[..j]
    {
      var e := edges[j];
      assert edges[..j + 1] == edges[..j] + [e];
      if e.source !in nodes {
        return Some(UnknownEndpoint(e, Source));
      }
      if e.target !in nodes {
        return Some(UnknownEndpoint(e, Target));
      }
      if e.source == e.target {
        return Some(SelfLoop(e.source));
      }
      if e in seen {
        return Some(DuplicateEdge(e));
      }
      seen := seen + {e};
    }
    assert edges[..|edges|] == edges;
    problem := None;
  }
}
