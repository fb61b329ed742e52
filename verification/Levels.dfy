/** Longest paths, cycles, and the arithmetic of Kahn's counters. */
module Levels {
  import opened Ordering
  import opened Graphs

  /** Some path of `k` edges ends at `n`; see `EndsPathMeansPath`. */
  ghost predicate EndsPath(g: Graph, n: Id, k: nat)
    decreases k
  {
    if k == 0 then n in g.nodes
    else exists e :: e in g.edges && e.target == n && EndsPath(g, e.source, k - 1)
  }

  /** The longest path that ends at `n` has exactly `k` edges. */
  ghost predicate AtLevel(g: Graph, n: Id, k: nat) {
    EndsPath(g, n, k) && !EndsPath(g, n, k + 1)
  }

  ghost function LevelOf(g: Graph, k: nat): set<Id> { set n | n in g.nodes && AtLevel(g, n, k) }

  /** `w` is the number of nodes in the widest level. */
  ghost predicate Widest(g: Graph, w: nat) {
    (forall k: nat :: |LevelOf(g, k)| <= w) && exists k: nat :: |LevelOf(g, k)| == w
  }

  lemma EndsPathMeansPath(g: Graph, n: Id, k: nat)
    requires g.Valid()
    ensures EndsPath(g, n, k) <==> exists p :: g.Path(p) && |p| == k + 1 && p[k] == n
  {
    if EndsPath(g, n, k) {
      var p := PathEnding(g, n, k);
    }
    if p :| g.Path(p) && |p| == k + 1 && p[k] == n {
      PathEnds(g, p, k);
    }
  }

  lemma {:induction false} PathEnding(g: Graph, n: Id, k: nat) returns (p: seq<Id>)
    requires g.Valid() && EndsPath(g, n, k)
    ensures g.Path(p) && |p| == k + 1 && p[k] == n
    decreases k
  {
    if k == 0 {
      p := [n];
    } else {
      var e :| e in g.edges && e.target == n && EndsPath(g, e.source, k - 1);
      var front := PathEnding(g, e.source, k - 1);
      assert g.HasEdge(front[k - 1], n);
      p := front + [n];
      forall i | 0 < i < |p| ensures g.HasEdge(p[i - 1], p[i]) {
        if i < k { assert g.HasEdge(front[i - 1], front[i]); }
      }
    }
  }

  lemma {:induction false} PathEnds(g: Graph, p: seq<Id>, k: nat)
    requires g.Path(p) && k < |p|
    ensures EndsPath(g, p[k], k)
    decreases k
  {
    if k > 0 {
      PathEnds(g, p, k - 1);
      assert g.HasEdge(p[k - 1], p[k]);
    }
  }

  lemma {:induction false} ShorterPath(g: Graph, n: Id, k: nat)
    requires g.Valid() && EndsPath(g, n, k + 1)
    ensures EndsPath(g, n, k)
    decreases k
  {
    var e :| e in g.edges && e.target == n && EndsPath(g, e.source, k);
    if k > 0 { ShorterPath(g, e.source, k - 1); }
  }

  lemma {:induction false} ShorterPaths(g: Graph, n: Id, j: nat, k: nat)
    requires g.Valid() && EndsPath(g, n, k) && j <= k
    ensures EndsPath(g, n, j)
  {
    if j < k {
      ShorterPath(g, n, k - 1);
      ShorterPaths(g, n, j, k - 1);
    }
  }

  // ------------------------------------------------------------ cycles

  /** A cycle lies at or upstream of `n`. */
  ghost predicate BelowCycle(g: Graph, n: Id) {
    exists c :: c in g.nodes && g.Reaches(c, c) && (c == n || g.Reaches(c, n))
  }

  /** A walk of more steps than there are nodes passes some node twice. */
  lemma {:induction false} Pigeonhole(p: seq<Id>, s: set<Id>)
    requires (forall i :: 0 <= i < |p| ==> p[i] in s) && |p| > |s|
    ensures exists i, j :: 0 <= i < j < |p| && p[i] == p[j]
  {
    var last := |p| - 1;
    if x :| 0 <= x < last && p[x] == p[last] {
    } else {
      var front := p[..last];
      forall i | 0 <= i < |front| ensures front[i] in s - {p[last]} {
        assert front[i] == p[i];
      }
      Pigeonhole(front, s - {p[last]});
      var i, j :| 0 <= i < j < |front| && front[i] == front[j];
      assert p[i] == p[j];
    }
  }

  /** Only below a cycle can paths be arbitrarily long. */
  lemma LongPathMeansCycle(g: Graph, n: Id)
    requires g.Valid() && EndsPath(g, n, |g.nodes|)
    ensures BelowCycle(g, n)
  {
    var k := |g.nodes|;
    var p := PathEnding(g, n, k);
    assert forall i :: 0 <= i < |p| ==> p[i] in g.nodes.Keys;
    Pigeonhole(p, g.nodes.Keys);
    var i: nat, j: nat :| i < j < |p| && p[i] == p[j];
    RepeatMeansCycle(g, p, i, j);
  }

  lemma RepeatMeansCycle(g: Graph, p: seq<Id>, i: nat, j: nat)
    requires g.Path(p) && i < j < |p| && p[i] == p[j]
    ensures BelowCycle(g, p[|p| - 1])
  {
    SegmentReaches(g, p, i, j);
    if j < |p| - 1 { SegmentReaches(g, p, j, |p| - 1); }
  }

  /** Conversely, below a cycle there are paths of every length. */
  lemma {:induction false} CycleMeansLongPath(g: Graph, n: Id, k: nat)
    requires g.Valid() && n in g.nodes && BelowCycle(g, n)
    ensures EndsPath(g, n, k)
    decreases k
  {
    if k > 0 {
      var c :| c in g.nodes && g.Reaches(c, c) && (c == n || g.Reaches(c, n));
      var e := LastEdge(g, c, n);
      assert BelowCycle(g, e.source);
      CycleMeansLongPath(g, e.source, k - 1);
    }
  }

  // ------------------------------------------------------------ Kahn's counters

  ghost function Waiting(g: Graph, done: set<Id>, n: Id): set<Edge> {
    set e | e in g.edges && e.target == n && e.source !in done
  }

  /** One node's counter is the number of incoming edges whose source is not done yet, and the
      node is done or queued exactly if that number is zero. */
  ghost predicate KahnNode(g: Graph, pending: map<Id, int>, done: set<Id>, queued: set<Id>, n: Id) {
    && n in pending && pending[n] == |Waiting(g, done, n)|
    && (pending[n] == 0 <==> n in done || n in queued)
    && !(n in done && n in queued)
  }

  ghost predicate Kahn(g: Graph, pending: map<Id, int>, done: set<Id>, queued: set<Id>) {
    && done <= g.nodes.Keys && queued <= g.nodes.Keys && pending.Keys == g.nodes.Keys
    && forall n {:trigger KahnNode(g, pending, done, queued, n)} :: n in g.nodes ==>
      KahnNode(g, pending, done, queued, n)
  }

  function Targets(es: seq<Edge>): (ts: seq<Id>)
    ensures |ts| == |es|
    ensures forall i :: 0 <= i < |es| ==> ts[i] == es[i].target
  {
    seq(|es|, i requires 0 <= i < |es| => es[i].target)
  }

  ghost function OfTarget(es: seq<Edge>, m: Id): set<Edge> { set e | e in es && e.target == m }

  lemma {:induction false} TargetsCount(es: seq<Edge>, m: Id)
    requires Distinct(es)
    ensures multiset(Targets(es))[m] == |OfTarget(es, m)|
  {
    if es == [] {
      assert OfTarget(es, m) == {};
    } else {
      var front, e := es[..|es| - 1], es[|es| - 1];
      TargetsCount(front, m);
      assert es == front + [e] && e !in front;
      TargetsAppend(front, e);
      hide Targets;
      assert multiset(Targets(front) + [e.target])[m] == multiset(Targets(front))[m] + if e.target == m then 1 else 0;
      OfTargetAppend(front, e, m);
    }
  }

  lemma TargetsAppend(front: seq<Edge>, e: Edge)
    ensures Targets(front + [e]) == Targets(front) + [e.target]
  {}

  lemma OfTargetAppend(front: seq<Edge>, e: Edge, m: Id)
    requires e !in front
    ensures |OfTarget(front + [e], m)| == |OfTarget(front, m)| + if e.target == m then 1 else 0
  {
    assert OfTarget(front + [e], m) == OfTarget(front, m) + if e.target == m then {e} else {};
  }

  /** How often `m` is among the targets of `n`'s edges: as often as there are edges to it. */
  lemma SuccessorCount(g: Graph, n: Id, m: Id)
    requires g.Valid()
    ensures multiset(Targets(g.Successors(n)))[m] == |g.Bundle(n, m)|
  {
    SourcedElements(g.edges, n);
    TargetsCount(g.Successors(n), m);
    assert OfTarget(g.Successors(n), m) == g.Bundle(n, m);
  }

  /** Counting down `n`'s edges is what makes `n` done. */
  lemma WaitingSplit(g: Graph, done: set<Id>, n: Id, m: Id)
    requires n !in done
    ensures |Waiting(g, done, m)| == |Waiting(g, done + {n}, m)| + |g.Bundle(n, m)|
  {
    var rest, bundle := Waiting(g, done + {n}, m), g.Bundle(n, m);
    assert Waiting(g, done, m) == rest + bundle && rest !! bundle;
  }

  lemma KahnStart(g: Graph, pending: map<Id, int>, queued: set<Id>)
    requires g.Valid() && pending.Keys == g.nodes.Keys && queued <= g.nodes.Keys
    requires forall n :: n in g.nodes ==> pending[n] == |g.Predecessors(n)|
    requires forall n :: n in g.nodes ==> (n in queued <==> pending[n] == 0)
    ensures Kahn(g, pending, {}, queued)
  {
    forall n | n in g.nodes ensures KahnNode(g, pending, {}, queued, n) {
      IndegreeCounts(g, n);
      assert Waiting(g, {}, n) == g.In(n);
    }
  }

  /** `pending'` is `pending` with the targets of `n` counted down, and `hit` are those that
      reached zero on the way. */
  lemma KahnPop(
    g: Graph, pending: map<Id, int>, done: set<Id>, queued: set<Id>, n: Id, pending': map<Id, int>, hit: set<Id>)
    requires g.Valid() && Kahn(g, pending, done, queued) && n in queued
    requires pending'.Keys == pending.Keys
    requires forall m :: m in pending ==> pending'[m] == pending[m] - multiset(Targets(g.Successors(n)))[m]
    requires forall m :: m in hit <==> m in pending && 0 < pending[m] <= multiset(Targets(g.Successors(n)))[m]
    ensures Kahn(g, pending', done + {n}, queued - {n} + hit)
    ensures hit !! queued && hit !! done
  {
    assert KahnNode(g, pending, done, queued, n);
    forall m | m in g.nodes
      ensures KahnNode(g, pending', done + {n}, queued - {n} + hit, m) && !(m in hit && (m in queued || m in done))
    {
      assert KahnNode(g, pending, done, queued, m);
      SuccessorCount(g, n, m);
      WaitingSplit(g, done, n, m);
    }
  }

  /** When the queue is empty, the nodes that are not done are those below a cycle. */
  lemma StuckNodes(g: Graph, pending: map<Id, int>, done: set<Id>, n: Id)
    requires g.Valid() && Kahn(g, pending, done, {}) && n in g.nodes
    requires forall m :: m in done ==> !BelowCycle(g, m)
    ensures pending[n] > 0 <==> BelowCycle(g, n)
    ensures pending[n] > 0 <==> n !in done
  {
    assert KahnNode(g, pending, done, {}, n);
    if n !in done {
      StuckWalk(g, pending, done, n, |g.nodes|);
      LongPathMeansCycle(g, n);
    }
  }

  lemma {:induction false} StuckWalk(g: Graph, pending: map<Id, int>, done: set<Id>, n: Id, k: nat)
    requires g.Valid() && Kahn(g, pending, done, {}) && n in g.nodes && n !in done
    ensures EndsPath(g, n, k)
    decreases k
  {
    if k > 0 {
      assert KahnNode(g, pending, done, {}, n);
      assert |Waiting(g, done, n)| != 0;
      var e :| e in Waiting(g, done, n);
      StuckWalk(g, pending, done, e.source, k - 1);
    }
  }
}
