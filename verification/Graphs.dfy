/** Node outputs, and the validated DAG the engine runs. */
module Graphs {
  import opened Wrappers
  import opened Ordering
  import opened Values

  /** Why a node failed. The engine's messages are kept as data. */
  datatype Fault =
    | Raised(text: string)
    | UnknownBranch(node: Id, branch: string, labels: set<string>)
    | NoErrorEdge(cause: Fault, wanted: string, labels: set<string>)

  datatype Value = Data(json: Json) | ErrorText(fault: Fault)

  type Outputs = map<string, Value>

  datatype ErrorStrategy = Fail | Default | Branch

  datatype RetryPolicy = RetryPolicy(onError: ErrorStrategy, errorOutput: Outputs, errorBranch: string)

  datatype NodeSpec = NodeSpec(id: Id, retry: RetryPolicy)

  datatype Edge = Edge(source: Id, target: Id, branch: Option<string>)

  /** `ids` lists the nodes in definition order, `nodes` looks them up. */
  datatype Graph = Graph(ids: seq<Id>, nodes: map<Id, NodeSpec>, edges: seq<Edge>) {

    /** What the constructor has checked, acyclicity apart. */
    ghost predicate Valid() {
      && ids != [] && Distinct(ids)
      && nodes.Keys == (set n | n in ids)
      && Distinct(edges)
      && forall e :: e in edges ==> e.source in nodes && e.target in nodes && e.source != e.target
    }

    ghost function In(n: Id): set<Edge> { set e | e in edges && e.target == n }

    ghost function Out(n: Id): set<Edge> { set e | e in edges && e.source == n }

    /** The parallel edges from one node to another; they differ in their labels. */
    ghost function Bundle(a: Id, b: Id): set<Edge> { set e | e in edges && e.source == a && e.target == b }

    function Successors(n: Id): seq<Edge> { Sourced(edges, n) }

    function Predecessors(n: Id): seq<Edge> { Targeted(edges, n) }

    function Roots(): seq<Id> { Unpreceded(this, ids) }

    predicate HasEdge(a: Id, b: Id) { exists e :: e in edges && e.source == a && e.target == b }

    ghost predicate Path(p: seq<Id>) {
      && |p| > 0
      && (forall i :: 0 <= i < |p| ==> p[i] in nodes)
      && forall i :: 0 < i < |p| ==> HasEdge(p[i - 1], p[i])
    }

    ghost predicate PathFrom(p: seq<Id>, a: Id, b: Id) {
      Path(p) && p[0] == a && p[|p| - 1] == b
    }

    /** Some path of at least one edge leads from `a` to `b`. */
    ghost predicate Reaches(a: Id, b: Id) {
      exists p :: |p| > 1 && PathFrom(p, a, b)
    }

    ghost predicate Acyclic() {
      forall n :: n in nodes ==> !Reaches(n, n)
    }

    ghost function Ancestors(n: Id): set<Id> {
      set a | a in nodes && Reaches(a, n)
    }

    /** Induction over an acyclic graph goes by this number; see `EdgeRaisesRank`. */
    ghost function Rank(n: Id): nat { |Ancestors(n)| }
  }

  function Sourced(edges: seq<Edge>, n: Id): seq<Edge> {
    if edges == [] then []
    else (if edges[0].source == n then [edges[0]] else []) + Sourced(edges[1..], n)
  }

  function Targeted(edges: seq<Edge>, n: Id): seq<Edge> {
    if edges == [] then []
    else (if edges[0].target == n then [edges[0]] else []) + Targeted(edges[1..], n)
  }

  function Unpreceded(g: Graph, ids: seq<Id>): seq<Id> {
    if ids == [] then []
    else (if g.Predecessors(ids[0]) == [] then [ids[0]] else []) + Unpreceded(g, ids[1..])
  }

  lemma {:induction false} SourcedElements(edges: seq<Edge>, n: Id)
    ensures forall e :: e in Sourced(edges, n) <==> e in edges && e.source == n
    ensures Distinct(edges) ==> Distinct(Sourced(edges, n))
  {
    if edges != [] { SourcedElements(edges[1..], n); }
  }

  lemma {:induction false} TargetedElements(edges: seq<Edge>, n: Id)
    ensures forall e :: e in Targeted(edges, n) <==> e in edges && e.target == n
    ensures Distinct(edges) ==> Distinct(Targeted(edges, n))
  {
    if edges != [] { TargetedElements(edges[1..], n); }
  }

  lemma {:induction false} DistinctCardinality<T>(s: seq<T>)
    requires Distinct(s)
    ensures |set x | x in s| == |s|
  {
    if s != [] {
      DistinctCardinality(s[1..]);
      assert (set x | x in s) == {s[0]} + set x | x in s[1..];
    }
  }

  /** The length of a predecessor list is the number of incoming edges. */
  lemma IndegreeCounts(g: Graph, n: Id)
    requires g.Valid()
    ensures |g.Predecessors(n)| == |g.In(n)|
  {
    TargetedElements(g.edges, n);
    DistinctCardinality(g.Predecessors(n));
    assert (set e | e in g.Predecessors(n)) == g.In(n);
  }

  lemma {:induction false} UnprecededElements(g: Graph, ids: seq<Id>)
    ensures forall n :: n in Unpreceded(g, ids) <==> n in ids && g.Predecessors(n) == []
    ensures Distinct(ids) ==> Distinct(Unpreceded(g, ids))
  {
    if ids != [] { UnprecededElements(g, ids[1..]); }
  }

  /** The roots are the nodes without incoming edges. */
  lemma RootElements(g: Graph)
    requires g.Valid()
    ensures Distinct(g.Roots())
    ensures forall n :: n in g.Roots() <==> n in g.nodes && g.In(n) == {}
  {
    UnprecededElements(g, g.ids);
    forall n ensures g.Predecessors(n) == [] <==> g.In(n) == {} {
      TargetedElements(g.edges, n);
      IndegreeCounts(g, n);
    }
  }

  // ------------------------------------------------------------ reachability

  lemma EdgeReaches(g: Graph, e: Edge)
    requires g.Valid() && e in g.edges
    ensures g.Reaches(e.source, e.target)
  {
    assert g.PathFrom([e.source, e.target], e.source, e.target);
  }

  lemma Concatenated(g: Graph, p: seq<Id>, q: seq<Id>, a: Id, b: Id, c: Id)
    requires g.PathFrom(p, a, b) && g.PathFrom(q, b, c)
    ensures g.PathFrom(p + q[1..], a, c) && |p + q[1..]| == |p| + |q| - 1
  {
    var r := p + q[1..];
    forall i | 0 < i < |r| ensures g.HasEdge(r[i - 1], r[i]) {
      if i < |p| {
        assert g.HasEdge(p[i - 1], p[i]);
      } else {
        var j := i - |p| + 1;
        assert g.HasEdge(q[j - 1], q[j]);
      }
    }
  }

  lemma ReachesTransitive(g: Graph, a: Id, b: Id, c: Id)
    requires g.Reaches(a, b) && g.Reaches(b, c)
    ensures g.Reaches(a, c)
  {
    var p :| |p| > 1 && g.PathFrom(p, a, b);
    var q :| |q| > 1 && g.PathFrom(q, b, c);
    Concatenated(g, p, q, a, b, c);
  }

  lemma Segment(g: Graph, p: seq<Id>, i: nat, j: nat)
    requires g.Path(p) && i < j <= |p|
    ensures g.Path(p[i..j])
  {
    var q := p[i..j];
    forall k | 0 < k < |q| ensures g.HasEdge(q[k - 1], q[k]) {
      assert g.HasEdge(p[i + k - 1], p[i + k]);
    }
  }

  lemma SegmentReaches(g: Graph, p: seq<Id>, i: nat, j: nat)
    requires g.Path(p) && i < j < |p|
    ensures g.Reaches(p[i], p[j])
  {
    Segment(g, p, i, j + 1);
    assert g.PathFrom(p[i..j + 1], p[i], p[j]);
  }

  /** Whoever reaches `n` is the source of one of its incoming edges, or reaches one. */
  lemma LastEdge(g: Graph, a: Id, n: Id) returns (e: Edge)
    requires g.Valid() && g.Reaches(a, n)
    ensures e in g.edges && e.target == n && (e.source == a || g.Reaches(a, e.source))
  {
    var p :| |p| > 1 && g.PathFrom(p, a, n);
    assert g.HasEdge(p[|p| - 2], p[|p| - 1]);
    e :| e in g.edges && e.source == p[|p| - 2] && e.target == n;
    if |p| > 2 {
      SegmentReaches(g, p, 0, |p| - 2);
    }
  }

  lemma AncestorsAlongEdge(g: Graph, e: Edge)
    requires g.Valid() && e in g.edges
    ensures g.Ancestors(e.source) <= g.Ancestors(e.target) && e.source in g.Ancestors(e.target)
  {
    EdgeReaches(g, e);
    forall a | a in g.Ancestors(e.source) ensures a in g.Ancestors(e.target) {
      ReachesTransitive(g, a, e.source, e.target);
    }
  }

  /** In an acyclic graph the number of ancestors grows along every edge. */
  lemma EdgeRaisesRank(g: Graph, e: Edge)
    requires g.Valid() && g.Acyclic() && e in g.edges
    ensures g.Rank(e.source) < g.Rank(e.target)
  {
    AncestorsAlongEdge(g, e);
    StrictSubset(g.Ancestors(e.source), g.Ancestors(e.target), e.source);
  }

  lemma StrictSubset<T>(a: set<T>, b: set<T>, x: T)
    requires a <= b && x in b && x !in a
    ensures |a| < |b|
  {
    assert a <= b - {x};
    SubsetCardinality(a, b - {x});
  }

  lemma {:induction false} SubsetCardinality<T>(a: set<T>, b: set<T>)
    requires a <= b
    ensures |a| <= |b|
  {
    assert b == a + (b - a);
  }
}
