/** The engine itself: one object per run, updated in place by `Settle`, `DrainSettles`,
    `Gather` and `Drive`, each tied to the value model of module Engine. */
module Scheduler {
  import opened Wrappers
  import opened Ordering
  import opened Graphs
  import opened Engine
  import opened Frontiers
  import opened Endings

  /** One worklist entry: a settled node and how it settled. */
  datatype Settling = Settling(node: Id, branch: Option<string>, wasSkipped: bool, errorRouted: bool)

  ghost predicate Matches(runs: map<Id, NodeRun>, i: Settling) {
    && SettledIn(runs, i.node)
    && i.wasSkipped == runs[i.node].status.Skipped?
    && (!i.wasSkipped ==> i.branch == runs[i.node].branch && i.errorRouted == runs[i.node].status.Failed?)
  }

  ghost function Nodes(w: seq<Settling>): set<Id> { set i | i in w :: i.node }

  ghost predicate Worklist(runs: map<Id, NodeRun>, w: seq<Settling>) {
    && (forall i :: i in w ==> Matches(runs, i))
    && forall i, j :: 0 <= i < j < |w| ==> w[i].node != w[j].node
  }

  ghost function ToTarget(es: seq<Edge>, m: Id): set<Edge> { set e | e in es && e.target == m }

  ghost function TakenTo(es: seq<Edge>, m: Id, policy: RetryPolicy, i: Settling): set<Edge> {
    set e | e in es && e.target == m && TakenBy(policy, i, e)
  }

  predicate TakenBy(policy: RetryPolicy, i: Settling, e: Edge) {
    EdgeTaken(policy, e, i.branch, i.wasSkipped, i.errorRouted)
  }

  /** How many of the first `k` edges lead to `m`, and how many of those are taken. */
  ghost function Hits(es: seq<Edge>, k: nat, m: Id): nat
    requires k <= |es|
  {
    if k == 0 then 0 else Hits(es, k - 1, m) + if es[k - 1].target == m then 1 else 0
  }

  ghost function TakenHits(es: seq<Edge>, k: nat, m: Id, policy: RetryPolicy, i: Settling): nat
    requires k <= |es|
  {
    if k == 0 then 0
    else TakenHits(es, k - 1, m, policy, i) + if es[k - 1].target == m && TakenBy(policy, i, es[k - 1]) then 1 else 0
  }

  /** `p` is `p0` after counting down the first `k` edges, `t` is `t0` after crediting them,
      and `unlocked` lists the counters that passed through zero on the way. */
  ghost predicate CountedDown(p0: map<Id, int>, p: map<Id, int>, es: seq<Edge>, k: nat)
    requires k <= |es|
  {
    p.Keys == p0.Keys && forall m :: m in p0 ==> p[m] == p0[m] - Hits(es, k, m)
  }

  ghost predicate Credited(t0: map<Id, int>, t: map<Id, int>, es: seq<Edge>, k: nat, policy: RetryPolicy, i: Settling)
    requires k <= |es|
  {
    t.Keys == t0.Keys && forall m :: m in t0 ==> t[m] == t0[m] + TakenHits(es, k, m, policy, i)
  }

  ghost predicate Unlocked(p0: map<Id, int>, unlocked: seq<Id>, es: seq<Edge>, k: nat)
    requires k <= |es|
  {
    Distinct(unlocked) && forall m :: m in unlocked <==> m in p0 && 0 < p0[m] <= Hits(es, k, m)
  }

  lemma NextCountedDown(p0: map<Id, int>, p: map<Id, int>, es: seq<Edge>, k: nat)
    requires k < |es| && es[k].target in p0 && CountedDown(p0, p, es, k)
    ensures CountedDown(p0, p[es[k].target := p[es[k].target] - 1], es, k + 1)
  {}

  lemma NextCredited(t0: map<Id, int>, t: map<Id, int>, es: seq<Edge>, k: nat, policy: RetryPolicy, i: Settling)
    requires k < |es| && es[k].target in t0 && Credited(t0, t, es, k, policy, i)
    ensures Credited(t0, if TakenBy(policy, i, es[k]) then t[es[k].target := t[es[k].target] + 1] else t,
                     es, k + 1, policy, i)
  {}

  lemma NextUnlocked(p0: map<Id, int>, unlocked: seq<Id>, es: seq<Edge>, k: nat)
    requires k < |es| && es[k].target in p0 && Unlocked(p0, unlocked, es, k)
    ensures var m := es[k].target;
            Unlocked(p0, if p0[m] - Hits(es, k, m) - 1 == 0 then unlocked + [m] else unlocked, es, k + 1)
  {}

  lemma OneMore<T>(a: set<T>, b: set<T>, x: T, extra: bool)
    requires x !in a && b == if extra then a + {x} else a
    ensures |b| == |a| + if extra then 1 else 0
  {}

  lemma OneMoreEdge(front: seq<Edge>, e: Edge, m: Id, policy: RetryPolicy, i: Settling)
    requires e !in front
    ensures |ToTarget(front + [e], m)| == |ToTarget(front, m)| + if e.target == m then 1 else 0
    ensures |TakenTo(front + [e], m, policy, i)|
         == |TakenTo(front, m, policy, i)| + if e.target == m && TakenBy(policy, i, e) then 1 else 0
  {
    hide TakenBy;
    var es := front + [e];
    assert forall x :: x in es <==> x in front || x == e;
    OneMore(ToTarget(front, m), ToTarget(es, m), e, e.target == m);
    OneMore(TakenTo(front, m, policy, i), TakenTo(es, m, policy, i), e, e.target == m && TakenBy(policy, i, e));
  }

  /** On a list without repetitions the two numbers are sizes of sets of edges. */
  lemma {:induction false} HitsCount(es: seq<Edge>, k: nat, m: Id, policy: RetryPolicy, i: Settling)
    requires Distinct(es) && k <= |es|
    ensures Hits(es, k, m) == |ToTarget(es[..k], m)|
    ensures TakenHits(es, k, m, policy, i) == |TakenTo(es[..k], m, policy, i)|
  {
    hide TakenBy;
    if k == 0 {
      assert ToTarget(es[..k], m) == {} && TakenTo(es[..k], m, policy, i) == {};
    } else {
      hide ToTarget;
      hide TakenTo;
      var front, e := es[..k - 1], es[k - 1];
      HitsCount(es, k - 1, m, policy, i);
      assert es[..k] == front + [e];
      OneMoreEdge(front, e, m, policy, i);
    }
  }

  lemma SuccessorHits(g: Graph, i: Settling, m: Id)
    requires g.Valid() && i.node in g.nodes
    ensures var es := g.Successors(i.node);
            && Hits(es, |es|, m) == |g.Bundle(i.node, m)|
            && TakenHits(es, |es|, m, g.nodes[i.node].retry, i) == |TakenTo(es, m, g.nodes[i.node].retry, i)|
  {
    var es := g.Successors(i.node);
    SourcedElements(g.edges, i.node);
    assert es[..|es|] == es;
    HitsCount(es, |es|, m, g.nodes[i.node].retry, i);
    assert ToTarget(es, m) == g.Bundle(i.node, m);
  }

  ghost function PendingNodes(runs: map<Id, NodeRun>): set<Id> {
    set n | n in runs && runs[n].status.Pending?
  }

  // ------------------------------------------------------------ one step of a drain

  /** What counting down all of one node's edges has done to the counters. */
  ghost predicate AfterCountdown(g: Graph, s: State, t: State, i: Settling, unlocked: seq<Id>)
    requires i.node in g.nodes
  {
    var es := g.Successors(i.node);
    && CountedDown(s.pending, t.pending, es, |es|)
    && Credited(s.taken, t.taken, es, |es|, g.nodes[i.node].retry, i)
    && Unlocked(s.pending, unlocked, es, |es|)
  }

  lemma SettledOneAt(g: Graph, s: State, t: State, w: set<Id>, i: Settling, due: set<Id>, unlocked: seq<Id>, n: Id)
    requires g.Valid() && Tally(g, s, w, due, {}) && i.node in w && i.node in g.nodes && Matches(s.runs, i)
    requires t == s.(pending := t.pending, taken := t.taken) && n in g.nodes
    requires AfterCountdown(g, s, t, i, unlocked)
    ensures Domains(g, t) && Exact(g, t, w - {i.node}, n) && Placed(g, t, due, Elements(unlocked), n)
  {
    hide Hits;
    hide TakenHits;
    hide Uncounted;
    hide TakenIn;
    hide Fits;
    hide Matches;
    hide Graph.Successors;
    SettledOneNode(g, s, w, i, n);
    var es := g.Successors(i.node);
    assert Placed(g, s, due, {}, n) && Exact(g, s, w, n);
    StillFits(s.runs[n].status, s.pending[n], s.taken[n], g.In(n) == {}, n in due,
              Hits(es, |es|, n), TakenHits(es, |es|, n, g.nodes[i.node].retry, i));
    assert n in Elements(unlocked) <==> 0 < s.pending[n] <= Hits(es, |es|, n);
  }

  /** Popping one worklist entry and counting down its edges. */
  lemma SettledOne(g: Graph, s: State, t: State, w: set<Id>, i: Settling, due: set<Id>, unlocked: seq<Id>)
    requires g.Valid() && Tally(g, s, w, due, {}) && i.node in w && i.node in g.nodes && Matches(s.runs, i)
    requires t == s.(pending := t.pending, taken := t.taken)
    requires AfterCountdown(g, s, t, i, unlocked)
    ensures Tally(g, t, w - {i.node}, due, Elements(unlocked))
  {
    hide Exact;
    hide Placed;
    hide Matches;
    forall n | n in g.nodes
      ensures Exact(g, t, w - {i.node}, n) && Placed(g, t, due, Elements(unlocked), n)
    {
      SettledOneAt(g, s, t, w, i, due, unlocked, n);
    }
    assert forall n :: n in unlocked ==> n in s.pending;
  }

  lemma StillFits(status: NodeStatus, pending: int, taken: int, isRoot: bool, due: bool, hits: nat, takenHits: nat)
    requires Fits(status, pending, taken, isRoot, due, false)
    requires hits <= pending && takenHits <= hits && (hits > 0 ==> !isRoot)
    ensures Fits(status, pending - hits, taken + takenHits, isRoot, due, 0 < pending <= hits)
  {}

  lemma SettledOneNode(g: Graph, s: State, w: set<Id>, i: Settling, n: Id)
    requires g.Valid() && Domains(g, s) && Counters(g, s, w)
    requires i.node in w && i.node in g.nodes && Matches(s.runs, i) && n in g.nodes
    ensures var es := g.Successors(i.node);
            && s.pending[n] - Hits(es, |es|, n) == |Uncounted(g, s.runs, w - {i.node}, n)|
            && s.taken[n] + TakenHits(es, |es|, n, g.nodes[i.node].retry, i) == |TakenIn(g, s.runs, w - {i.node}, n)|
            && (Hits(es, |es|, n) > 0 ==> g.In(n) != {})
            && TakenHits(es, |es|, n, g.nodes[i.node].retry, i) <= Hits(es, |es|, n)
  {
    assert Exact(g, s, w, n);
    OffWorklist(g, s.runs, w, i.node, n);
    SuccessorHits(g, i, n);
    MatchingBundle(g, s.runs, i, n);
    SubsetCardinality(TakenBundle(g, s.runs, i.node, n), g.Bundle(i.node, n));
    if Hits(g.Successors(i.node), |g.Successors(i.node)|, n) > 0 {
      var e :| e in g.Bundle(i.node, n);
      assert e in g.In(n);
    }
  }

  lemma MatchingBundle(g: Graph, runs: map<Id, NodeRun>, i: Settling, n: Id)
    requires g.Valid() && i.node in g.nodes && Matches(runs, i)
    ensures TakenTo(g.Successors(i.node), n, g.nodes[i.node].retry, i) == TakenBundle(g, runs, i.node, n)
  {
    SourcedElements(g.edges, i.node);
  }

  /** A target some edge was taken to is due. */
  lemma KeptOne(g: Graph, s: State, w: set<Id>, due: set<Id>, unsorted: set<Id>, x: Id)
    requires Tally(g, s, w, due, unsorted) && x in unsorted && s.taken[x] != 0
    ensures Tally(g, s, w, due + {x}, unsorted - {x})
  {
    forall n | n in g.nodes ensures Placed(g, s, due + {x}, unsorted - {x}, n) {
      assert Placed(g, s, due, unsorted, n) && Exact(g, s, w, n);
    }
  }

  /** A target no edge was taken to is skipped, and joins the worklist. */
  lemma SkippedOne(g: Graph, s: State, w: set<Id>, due: set<Id>, unsorted: set<Id>, x: Id, t: State)
    requires Tally(g, s, w, due, unsorted) && x in unsorted && s.taken[x] == 0
    requires t == s.(runs := s.runs[x := s.runs[x].(status := NodeStatus.Skipped, wave := Some(s.waves))])
    ensures Tally(g, t, w + {x}, due, unsorted - {x})
  {
    assert Placed(g, s, due, unsorted, x);
    CountersCarryOver(g, s, w, t, w + {x});
    forall n | n in g.nodes ensures Placed(g, t, due, unsorted - {x}, n) {
      assert Placed(g, s, due, unsorted, n);
    }
  }

  /** `t` is `s` after some pending nodes were skipped and the counters moved. */
  ghost predicate SkipsOnly(s: State, t: State) {
    && t == s.(runs := t.runs, pending := t.pending, taken := t.taken)
    && t.runs.Keys == s.runs.Keys
    && forall n :: n in s.runs ==>
         || t.runs[n] == s.runs[n]
         || (s.runs[n].status.Pending? && t.runs[n] == s.runs[n].(status := NodeStatus.Skipped, wave := Some(s.waves)))
  }

  lemma WorklistGrows(s: State, w: seq<Settling>, x: Id, t: State)
    requires Worklist(s.runs, w) && x in s.runs && s.runs[x].status.Pending?
    requires t.runs == s.runs[x := s.runs[x].(status := NodeStatus.Skipped, wave := Some(s.waves))]
    ensures Worklist(t.runs, w + [Settling(x, None, true, false)])
    ensures Nodes(w + [Settling(x, None, true, false)]) == Nodes(w) + {x}
    ensures |PendingNodes(t.runs)| < |PendingNodes(s.runs)|
  {
    var i := Settling(x, None, true, false);
    forall j | j in w ensures j.node != x && Matches(t.runs, j) {
      assert Matches(s.runs, j);
    }
    StrictSubset(PendingNodes(t.runs), PendingNodes(s.runs), x);
    forall n | n in Nodes(w) + {x} ensures n in Nodes(w + [i]) {
      if n == x { assert i in w + [i]; }
      else { var j :| j in w && j.node == n; assert j in w + [i]; }
    }
  }

  lemma WorklistPops(runs: map<Id, NodeRun>, w: seq<Settling>)
    requires Worklist(runs, w) && w != []
    ensures Worklist(runs, w[1..]) && Nodes(w[1..]) == Nodes(w) - {w[0].node}
  {
    forall n | n in Nodes(w[1..]) ensures n in Nodes(w) - {w[0].node} {
      var j :| j in w[1..] && j.node == n;
      assert j in w;
    }
    forall n | n in Nodes(w) - {w[0].node} ensures n in Nodes(w[1..]) {
      var j :| j in w && j.node == n;
      assert j in w[1..];
    }
  }

  lemma HeadOff(s: seq<Id>, j: nat)
    requires Distinct(s) && j < |s|
    ensures Elements(s[j..]) - {s[j]} == Elements(s[j + 1..]) && s[j] in Elements(s[j..])
  {
    assert s[j..] == [s[j]] + s[j + 1..];
  }

  lemma Appended(s: seq<Id>, x: Id)
    ensures Elements(s + [x]) == Elements(s) + {x}
    ensures Distinct(s) && x !in Elements(s) ==> Distinct(s + [x])
  {}

  /** Where a drain stands: `settling` is still to be counted down, `hits` still to be decided. */
  ghost predicate Midway(g: Graph, s0: State, s: State, settling: seq<Settling>, unlocked: seq<Id>, hits: seq<Id>) {
    && SkipsOnly(s0, s)
    && Worklist(s.runs, settling)
    && Distinct(unlocked) && Distinct(hits) && Elements(unlocked) !! Elements(s.ready)
    && Tally(g, s, Nodes(settling), Elements(s.ready) + Elements(unlocked), Elements(hits))
  }

  lemma MidwaySettle(g: Graph, s0: State, s: State, settling: seq<Settling>, unlocked: seq<Id>, t: State, hits: seq<Id>)
    requires g.Valid() && settling != [] && Midway(g, s0, s, settling, unlocked, [])
    requires settling[0].node in g.nodes && t == s.(pending := t.pending, taken := t.taken)
    requires var i := settling[0]; var es := g.Successors(i.node);
             && CountedDown(s.pending, t.pending, es, |es|)
             && Credited(s.taken, t.taken, es, |es|, g.nodes[i.node].retry, i)
             && Unlocked(s.pending, hits, es, |es|)
    ensures Midway(g, s0, t, settling[1..], unlocked, hits)
  {
    WorklistPops(s.runs, settling);
    assert settling[0] in settling && Elements([]) == {};
    SettledOne(g, s, t, Nodes(settling), settling[0], Elements(s.ready) + Elements(unlocked), hits);
  }

  lemma MidwayTargets(g: Graph, s0: State, s: State, settling: seq<Settling>, unlocked: seq<Id>)
    requires g.Valid() && settling != [] && Midway(g, s0, s, settling, unlocked, [])
    ensures settling[0].node in g.nodes
    ensures forall e :: e in g.Successors(settling[0].node) ==> e.target in s.pending && e.target in s.taken
  {
    assert settling[0] in settling && Matches(s.runs, settling[0]);
    SourcedElements(g.edges, settling[0].node);
  }

  lemma MidwayHit(g: Graph, s0: State, s: State, settling: seq<Settling>, unlocked: seq<Id>, hits: seq<Id>)
    requires hits != [] && Midway(g, s0, s, settling, unlocked, hits)
    ensures hits[0] in g.nodes && hits[0] in s.taken && hits[0] in s.runs
  {
    assert hits[0] in Elements(hits);
  }

  lemma MidwayKeep(g: Graph, s0: State, s: State, settling: seq<Settling>, unlocked: seq<Id>, hits: seq<Id>)
    requires hits != [] && Midway(g, s0, s, settling, unlocked, hits) && hits[0] in s.taken && s.taken[hits[0]] != 0
    ensures Midway(g, s0, s, settling, unlocked + [hits[0]], hits[1..])
  {
    var x := hits[0];
    HeadOff(hits, 0);
    assert Placed(g, s, Elements(s.ready) + Elements(unlocked), Elements(hits), x);
    KeptOne(g, s, Nodes(settling), Elements(s.ready) + Elements(unlocked), Elements(hits), x);
    Appended(unlocked, x);
    assert Elements(s.ready) + Elements(unlocked + [x]) == Elements(s.ready) + Elements(unlocked) + {x};
    assert x !in Elements(s.ready) + Elements(unlocked);
  }

  lemma MidwaySkip(g: Graph, s0: State, s: State, settling: seq<Settling>, unlocked: seq<Id>, hits: seq<Id>, t: State)
    requires hits != [] && Midway(g, s0, s, settling, unlocked, hits) && hits[0] in g.nodes && s.taken[hits[0]] == 0
    requires t == s.(runs := s.runs[hits[0] := s.runs[hits[0]].(status := NodeStatus.Skipped, wave := Some(s.waves))])
    ensures Midway(g, s0, t, settling + [Settling(hits[0], None, true, false)], unlocked, hits[1..])
    ensures |PendingNodes(t.runs)| < |PendingNodes(s.runs)|
  {
    hide Worklist;
    hide Elements;
    hide Graph.Reaches;
    hide Counters;
    hide Exact;
    var x := hits[0];
    HeadOff(hits, 0);
    assert Placed(g, s, Elements(s.ready) + Elements(unlocked), Elements(hits), x);
    SkippedOne(g, s, Nodes(settling), Elements(s.ready) + Elements(unlocked), Elements(hits), x, t);
    WorklistGrows(s, settling, x, t);
    assert SkipsOnly(s0, t);
  }

  /** `_settle`: count down each successor edge of a settled node, in the counters it is
      handed; return the targets that just hit zero. */
  method Settle(g: Graph, i: Settling, pending0: map<Id, int>, taken0: map<Id, int>)
    returns (pending: map<Id, int>, taken: map<Id, int>, unlocked: seq<Id>)
    requires i.node in g.nodes
    requires forall e :: e in g.Successors(i.node) ==> e.target in pending0 && e.target in taken0
    ensures var es := g.Successors(i.node);
            && CountedDown(pending0, pending, es, |es|)
            && Credited(taken0, taken, es, |es|, g.nodes[i.node].retry, i)
            && Unlocked(pending0, unlocked, es, |es|)
  {
    var policy := g.nodes[i.node].retry;
    var es := g.Successors(i.node);
    pending, taken, unlocked := pending0, taken0, [];
    for k := 0 to |es|
      invariant CountedDown(pending0, pending, es, k)
      invariant Credited(taken0, taken, es, k, policy, i)
      invariant Unlocked(pending0, unlocked, es, k)
    {
      var e := es[k];
      NextCountedDown(pending0, pending, es, k);
      NextCredited(taken0, taken, es, k, policy, i);
      NextUnlocked(pending0, unlocked, es, k);
      if EdgeTaken(policy, e, i.branch, i.wasSkipped, i.errorRouted) {
        taken := taken[e.target := taken[e.target] + 1];
      }
      pending := pending[e.target := pending[e.target] - 1];
      if pending[e.target] == 0 {
        unlocked := unlocked + [e.target];
      }
    }
  }

  /** The inner loop of `_drain_settles`: each target that hit zero is dispatched next, or
      skipped, in which case it settles and joins the worklist. */
  method Decide(g: Graph, ghost s0: State, before: State, worklist: seq<Settling>, unlocked0: seq<Id>, hits0: seq<Id>)
    returns (s: State, settling: seq<Settling>, unlocked: seq<Id>)
    requires g.Valid() && Midway(g, s0, before, worklist, unlocked0, hits0)
    ensures Midway(g, s0, s, settling, unlocked, [])
    ensures |PendingNodes(s.runs)| < |PendingNodes(before.runs)|
            || (|PendingNodes(s.runs)| == |PendingNodes(before.runs)| && settling == worklist)
  {
    s, settling, unlocked := before, worklist, unlocked0;
    var hits := hits0;
    while hits != []
      invariant Midway(g, s0, s, settling, unlocked, hits)
      invariant |PendingNodes(s.runs)| < |PendingNodes(before.runs)|
                || (|PendingNodes(s.runs)| == |PendingNodes(before.runs)| && settling == worklist)
    {
      var target := hits[0];
      MidwayHit(g, s0, s, settling, unlocked, hits);
      if s.taken[target] != 0 {
        MidwayKeep(g, s0, s, settling, unlocked, hits);
        unlocked := unlocked + [target];
      } else {
        var skipped := s.runs[target].(status := NodeStatus.Skipped, wave := Some(s.waves));
        MidwaySkip(g, s0, s, settling, unlocked, hits, s.(runs := s.runs[target := skipped]));
        s := s.(runs := s.runs[target := skipped]);
        settling := settling + [Settling(target, None, true, false)];
      }
      hits := hits[1..];
    }
  }

  /** The outer loop: count down successors until nothing new settles. */
  method Drain(g: Graph, s0: State, start: seq<Settling>) returns (s: State, unlocked: seq<Id>)
    requires g.Valid() && Midway(g, s0, s0, start, [], [])
    ensures Midway(g, s0, s, [], unlocked, [])
  {
    var settling := start;
    s, unlocked := s0, [];
    while settling != []
      invariant Midway(g, s0, s, settling, unlocked, [])
      decreases |PendingNodes(s.runs)|, |settling|
    {
      var i := settling[0];
      MidwayTargets(g, s0, s, settling, unlocked);
      var p, t, hits := Settle(g, i, s.pending, s.taken);
      MidwaySettle(g, s0, s, settling, unlocked, s.(pending := p, taken := t), hits);
      s := s.(pending := p, taken := t);
      s, settling, unlocked := Decide(g, s0, s, settling[1..], unlocked, hits);
    }
  }

  // ------------------------------------------------------------ one wave

  /** What `execute` hands the node: the loop over the predecessor edges. */
  method Upstream(g: Graph, n: Id, completed: map<Id, Outputs>) returns (upstream: map<Id, Outputs>)
    ensures upstream == map p | p in completed && g.HasEdge(p, n) :: completed[p]
  {
    var es := g.Predecessors(n);
    upstream := map[];
    for k := 0 to |es|
      invariant forall p :: p in upstream <==> p in completed && exists j :: 0 <= j < k && es[j].source == p
      invariant forall p :: p in upstream ==> upstream[p] == completed[p]
    {
      if es[k].source in completed {
        upstream := upstream[es[k].source := completed[es[k].source]];
      }
    }
    forall p
      ensures (exists j :: 0 <= j < |es| && es[j].source == p) <==> g.HasEdge(p, n)
    {
      PredecessorSources(g, n, p);
    }
  }

  lemma PredecessorSources(g: Graph, n: Id, p: Id)
    ensures (exists j :: 0 <= j < |g.Predecessors(n)| && g.Predecessors(n)[j].source == p) <==> g.HasEdge(p, n)
  {
    TargetedElements(g.edges, n);
    if g.HasEdge(p, n) {
      var e :| e in g.edges && e.source == p && e.target == n;
      assert e in g.Predecessors(n);
    }
  }

  /** Where one node of a wave stands, given the nodes that have not finished yet. */
  ghost predicate Tracked(g: Graph, beh: Behaviour, s0: State, s: State, unfinished: set<Id>, n: Id)
    requires n in s0.runs && n in s.runs
  {
    var finished := n !in unfinished;
    var asks := finished && n in s0.ready && OutcomeOf(g, beh, s0, n).Asks?;
    && (finished ==> s.runs[n] == RecordAfter(g, beh, s0, n))
    && (n in s.awaiting <==> n in s0.awaiting || asks)
    && (asks && n in s.awaiting ==> s.awaiting[n] == OutcomeOf(g, beh, s0, n).question)
    && (!asks && n in s.awaiting && n in s0.awaiting ==> s.awaiting[n] == s0.awaiting[n])
  }

  /** Who of a wave has finished, who is running and who is still queued. */
  ghost predicate Underway(g: Graph, beh: Behaviour, s0: State, s: State, queued: set<Id>, running: map<Id, Context>) {
    && s == s0.(waves := s0.waves + 1, runs := s.runs, awaiting := s.awaiting)
    && s.runs.Keys == s0.runs.Keys && s.awaiting.Keys <= s.runs.Keys && s0.awaiting.Keys <= s.runs.Keys
    && queued <= Elements(s0.ready) && running.Keys <= Elements(s0.ready) && queued !! running.Keys
    && (forall n :: n in running ==> running[n] == ContextOf(g, s0, n))
    && forall n {:trigger Tracked(g, beh, s0, s, queued + running.Keys, n)} :: n in s0.runs ==>
         Tracked(g, beh, s0, s, queued + running.Keys, n)
  }

  lemma UnderwayAtFirst(g: Graph, beh: Behaviour, s0: State)
    requires s0.awaiting.Keys <= s0.runs.Keys
    ensures Underway(g, beh, s0, s0.(waves := s0.waves + 1), Elements(s0.ready), map[])
  {}

  lemma UnderwayMember(
    g: Graph, beh: Behaviour, s0: State, s: State, queued: set<Id>, running: map<Id, Context>, n: Id)
    requires Elements(s0.ready) <= g.nodes.Keys == s0.runs.Keys && Underway(g, beh, s0, s, queued, running)
    requires n in queued || n in running
    ensures n in g.nodes && n in s.runs && (n in queued ==> n !in running)
  {
    hide Tracked;
    assert n in Elements(s0.ready);
  }

  lemma FinishedNode(g: Graph, beh: Behaviour, s0: State, s: State, n: Id)
    requires Underway(g, beh, s0, s, {}, map[]) && n in s0.runs
    ensures var end := Gathered(g, beh, s0);
            && n in s.runs && s.runs[n] == end.runs[n]
            && (n in s.awaiting <==> n in end.awaiting)
            && (n in s.awaiting ==> s.awaiting[n] == end.awaiting[n])
  {
    hide RecordAfter;
    hide OutcomeOf;
    var nobody: map<Id, Context> := map[];
    assert Tracked(g, beh, s0, s, {} + nobody.Keys, n);
  }

  lemma UnderwayAtLast(g: Graph, beh: Behaviour, s0: State, s: State)
    requires Elements(s0.ready) <= s0.runs.Keys && Underway(g, beh, s0, s, {}, map[])
    ensures s == Gathered(g, beh, s0)
  {
    hide RecordAfter;
    hide OutcomeOf;
    hide Tracked;
    var end := Gathered(g, beh, s0);
    forall n | n in s0.runs
      ensures s.runs[n] == end.runs[n]
      ensures n in s.awaiting <==> n in end.awaiting
      ensures n in s.awaiting ==> s.awaiting[n] == end.awaiting[n]
    {
      FinishedNode(g, beh, s0, s, n);
    }
    assert forall n :: n in end.awaiting ==> n in s0.awaiting || n in Elements(s0.ready);
    assert s.runs == end.runs && s.awaiting == end.awaiting;
  }

  lemma UnderwayStart(
    g: Graph, beh: Behaviour, s0: State, s: State, queued: set<Id>, running: map<Id, Context>, n: Id, rec: NodeRun)
    requires Underway(g, beh, s0, s, queued, running) && n in queued && n in s.runs
    ensures Underway(g, beh, s0, s.(runs := s.runs[n := rec]), queued - {n}, running[n := ContextOf(g, s, n)])
  {
    hide RecordAfter;
    hide OutcomeOf;
    var t, queued', running' := s.(runs := s.runs[n := rec]), queued - {n}, running[n := ContextOf(g, s, n)];
    forall m | m in s0.runs ensures Tracked(g, beh, s0, t, queued' + running'.Keys, m) {
      assert Tracked(g, beh, s0, s, queued + running.Keys, m);
    }
  }

  lemma UnderwayFinish(
    g: Graph, beh: Behaviour, s0: State, s: State, queued: set<Id>, running: map<Id, Context>, n: Id, o: Outcome,
    t: State)
    requires Underway(g, beh, s0, s, queued, running) && n in running && n in g.nodes && n in s.runs
    requires o == beh(n, running[n])
    requires t == s.(runs := s.runs[n := Finished(g, n, Some(s.waves), o)],
                     awaiting := if o.Asks? then s.awaiting[n := o.question] else s.awaiting)
    ensures Underway(g, beh, s0, t, queued, running - {n})
  {
    var running' := running - {n};
    assert n in Elements(s0.ready) && o == OutcomeOf(g, beh, s0, n);
    forall m | m in s0.runs ensures Tracked(g, beh, s0, t, queued + running'.Keys, m) {
      assert Tracked(g, beh, s0, s, queued + running.Keys, m);
    }
  }

  /** The first half of `execute`: the node gets its slot, and its view of the run. */
  method Begin(
    g: Graph, ghost beh: Behaviour, ghost s0: State, s: State, ghost queued: set<Id>, running: map<Id, Context>, n: Id)
    returns (t: State, live: map<Id, Context>)
    requires Underway(g, beh, s0, s, queued, running) && n in queued && n in s.runs && n !in running
    ensures Underway(g, beh, s0, t, queued - {n}, live) && |live| == |running| + 1
  {
    hide Underway;
    var upstream := Upstream(g, n, s.completed);
    var rec := s.runs[n].(status := Running, wave := Some(s.waves));
    UnderwayStart(g, beh, s0, s, queued, running, n, rec);
    t := s.(runs := s.runs[n := rec]);
    live := running[n := Context(upstream, s.pool)];
    assert live.Keys == running.Keys + {n};
  }

  /** The second half: the outcome becomes the node's record, and a question is noted. */
  method Finish(
    g: Graph, beh: Behaviour, ghost s0: State, s: State, ghost queued: set<Id>, running: map<Id, Context>, n: Id)
    returns (t: State, live: map<Id, Context>)
    requires Underway(g, beh, s0, s, queued, running) && n in running && n in g.nodes && n in s.runs
    ensures Underway(g, beh, s0, t, queued, live) && |live| == |running| - 1
  {
    var outcome := beh(n, running[n]);
    t := s.(runs := s.runs[n := Finished(g, n, Some(s.waves), outcome)]);
    if outcome.Asks? {
      t := t.(awaiting := t.awaiting[n := outcome.question]);
    }
    UnderwayFinish(g, beh, s0, s, queued, running, n, outcome, t);
    MapShrinks(running, n);
    live := running - {n};
  }

  /** `asyncio.gather` over the ready queue. Which node starts and which one finishes next is
      left open, so the contract holds of every interleaving: the wave's result is the same,
      and never more than `maxConcurrency` nodes are live at once. */
  method Gather(g: Graph, beh: Behaviour, s0: State, maxConcurrency: Option<nat>) returns (s: State, peak: nat)
    requires Elements(s0.ready) <= g.nodes.Keys == s0.runs.Keys && s0.awaiting.Keys <= s0.runs.Keys
    requires maxConcurrency.Some? ==> maxConcurrency.value >= 1
    ensures s == Gathered(g, beh, s0)
    ensures maxConcurrency.Some? ==> peak <= maxConcurrency.value
    ensures peak <= |s0.ready|
  {
    hide Underway;
    s, peak := s0.(waves := s0.waves + 1), 0;
    var queued := set n | n in s0.ready;
    var running: map<Id, Context> := map[];
    CardinalityOfElements(s0.ready);
    UnderwayAtFirst(g, beh, s0);
    while queued != {} || running != map[]
      invariant Underway(g, beh, s0, s, queued, running)
      invariant |running| + |queued| <= |s0.ready|
      invariant maxConcurrency.Some? ==> |running| <= maxConcurrency.value && peak <= maxConcurrency.value
      invariant peak <= |s0.ready|
      decreases 2 * |queued| + |running|
    {
      var mayStart := queued != {} && (maxConcurrency.None? || |running| < maxConcurrency.value);
      var startNext: bool := *;
      if mayStart && (startNext || running == map[]) {
        var n :| n in queued;
        UnderwayMember(g, beh, s0, s, queued, running, n);
        s, running := Begin(g, beh, s0, s, queued, running, n);
        queued := queued - {n};
        peak := if |running| > peak then |running| else peak;
      } else {
        var n :| n in running;
        UnderwayMember(g, beh, s0, s, queued, running, n);
        s, running := Finish(g, beh, s0, s, queued, running, n);
      }
    }
    UnderwayAtLast(g, beh, s0, s);
  }

  lemma MapShrinks<T>(m: map<Id, T>, n: Id)
    requires n in m
    ensures |m - {n}| == |m| - 1
  {
    assert (m - {n}).Keys == m.Keys - {n};
  }

  lemma {:induction false} CardinalityOfElements(s: seq<Id>)
    ensures |set n | n in s| <= |s|
  {
    if s != [] {
      CardinalityOfElements(s[1..]);
      assert (set n | n in s) == {s[0]} + set n | n in s[1..];
    }
  }

  function SettlingOf(runs: map<Id, NodeRun>, batch: seq<Id>): seq<Settling> {
    if batch == [] then []
    else
      var n := batch[|batch| - 1];
      SettlingOf(runs, batch[..|batch| - 1]) +
      if RanIn(runs, n) then [Settling(n, runs[n].branch, false, runs[n].status.Failed?)] else []
  }

  /** The loop over the wave's results: fatal failures are listed, questions stay open, and
      everything else is published and put on the worklist. */
  method Collect(s: State, batch: seq<Id>) returns (t: State, settling: seq<Settling>, fatal: seq<Id>)
    requires forall n :: n in batch ==> n in s.runs && s.runs[n].status in {Completed, Failed, Paused}
    ensures t == Published(s, batch)
    ensures settling == SettlingOf(s.runs, batch) && fatal == FatalOf(s.runs, batch)
  {
    t, settling, fatal := s.(ready := []), [], [];
    for k := 0 to |batch|
      invariant t == Published(s, batch[..k])
      invariant settling == SettlingOf(s.runs, batch[..k]) && fatal == FatalOf(s.runs, batch[..k])
    {
      var n := batch[k];
      var rec := s.runs[n];
      NextResult(s, batch, k);
      if rec.status.Failed? && !rec.recovered {
        fatal := fatal + [n];
      } else if !rec.status.Paused? {
        t := t.(completed := t.completed[n := rec.outputs], pool := t.pool[n := rec.outputs]);
        settling := settling + [Settling(n, rec.branch, false, rec.status.Failed?)];
      }
    }
    assert batch[..|batch|] == batch;
  }

  lemma NextResult(s: State, batch: seq<Id>, k: nat)
    requires k < |batch| && batch[k] in s.runs
    ensures var n := batch[k]; var before := Published(s, batch[..k]);
            Published(s, batch[..k + 1]) ==
            if s.runs[n].Ran()
            then before.(completed := before.completed[n := s.runs[n].outputs],
              pool := before.pool[n := s.runs[n].outputs])
            else before
    ensures SettlingOf(s.runs, batch[..k + 1]) == SettlingOf(s.runs, batch[..k]) +
              if s.runs[batch[k]].Ran()
              then [Settling(batch[k], s.runs[batch[k]].branch, false, s.runs[batch[k]].status.Failed?)] else []
    ensures FatalOf(s.runs, batch[..k + 1])
            == FatalOf(s.runs, batch[..k]) + if s.runs[batch[k]].Fatal() then [batch[k]] else []
  {
    var n, short, long := batch[k], batch[..k], batch[..k + 1];
    assert long == short + [n] && long[..k] == short;
    var ran := RanOf(s.runs, short);
    assert RanOf(s.runs, long) == if s.runs[n].Ran() then ran[n := s.runs[n].outputs] else ran;
    MergeUpdate(s.completed, ran, n, s.runs[n].outputs);
    MergeUpdate(s.pool, ran, n, s.runs[n].outputs);
  }

  lemma MergeUpdate<T>(a: map<Id, T>, b: map<Id, T>, n: Id, v: T)
    ensures a + b[n := v] == (a + b)[n := v]
  {}

  lemma {:induction false} SettlingElements(runs: map<Id, NodeRun>, batch: seq<Id>)
    requires Distinct(batch)
    ensures forall i :: i in SettlingOf(runs, batch) <==>
              i.node in batch && RanIn(runs, i.node)
              && i == Settling(i.node, runs[i.node].branch, false, runs[i.node].status.Failed?)
    ensures Worklist(runs, SettlingOf(runs, batch))
    ensures Nodes(SettlingOf(runs, batch)) == set n | n in batch && RanIn(runs, n)
  {
    if batch != [] {
      var front, n := batch[..|batch| - 1], batch[|batch| - 1];
      assert batch == front + [n];
      SettlingElements(runs, front);
    }
    var w := SettlingOf(runs, batch);
    forall n | n in batch && RanIn(runs, n) ensures n in Nodes(w) {
      assert Settling(n, runs[n].branch, false, runs[n].status.Failed?) in w;
    }
  }

  /** What executing the ready queue of a frontier leaves to be drained. */
  lemma WaveMidway(g: Graph, beh: Behaviour, s: State, mid: State)
    requires Frontier(g, s) && mid == Published(Gathered(g, beh, s), s.ready)
    requires FatalOf(mid.runs, s.ready) == []
    ensures Midway(g, mid, mid, SettlingOf(mid.runs, s.ready), [], []) && Calm(mid)
  {
    var batch := s.ready;
    SettlingElements(mid.runs, batch);
    FatalElements(mid.runs, batch);
    WaveTally(g, beh, s, mid, Nodes(SettlingOf(mid.runs, batch)));
    assert Elements([]) == {} && Elements([]) + Elements([]) == {};
    WaveCalm(g, beh, s, mid);
  }

  lemma WaveTally(g: Graph, beh: Behaviour, s: State, mid: State, w: set<Id>)
    requires Frontier(g, s) && mid == Published(Gathered(g, beh, s), s.ready)
    requires forall n :: n in s.ready ==> n in mid.runs && !mid.runs[n].Fatal()
    requires w == set n | n in s.ready && RanIn(mid.runs, n)
    ensures Tally(g, mid, w, {}, {})
  {
    FrontierBatch(g, s);
    forall n | n in g.nodes
      ensures SettledIn(s.runs, n) <==> SettledIn(mid.runs, n) && n !in w
      ensures SettledIn(s.runs, n) ==> mid.runs[n] == s.runs[n]
    {
      assert n in w <==> n in s.ready && RanIn(mid.runs, n);
      WaveSettles(g, beh, s, n, mid.runs[n]);
    }
    CountersCarryOver(g, s, {}, mid, w);
    forall n | n in g.nodes ensures Placed(g, mid, {}, {}, n) { WavePlaced(g, beh, s, mid, n); }
  }

  lemma WaveSettles(g: Graph, beh: Behaviour, s: State, n: Id, rec: NodeRun)
    requires Frontier(g, s) && n in g.nodes && n in s.runs && rec == RecordAfter(g, beh, s, n)
    requires n in s.ready ==> !rec.Fatal()
    ensures s.runs[n].Settled() <==> rec.Settled() && !(n in s.ready && rec.Ran())
    ensures s.runs[n].Settled() ==> rec == s.runs[n]
  {
    NodeAfterWave(g, beh, s, n);
  }

  lemma WavePlaced(g: Graph, beh: Behaviour, s: State, mid: State, n: Id)
    requires Frontier(g, s) && Domains(g, mid) && n in g.nodes
    requires mid.runs[n] == RecordAfter(g, beh, s, n) && mid.pending == s.pending && mid.taken == s.taken
    ensures Placed(g, mid, {}, {}, n)
  {
    NodeAfterWave(g, beh, s, n);
    assert n in s.ready <==> n in Elements(s.ready);
    assert Placed(g, s, Elements(s.ready), {}, n);
  }

  lemma NodeCalm(g: Graph, beh: Behaviour, s: State, mid: State, n: Id)
    requires Frontier(g, s) && mid == Published(Gathered(g, beh, s), s.ready) && n in s.runs
    requires n in s.ready ==> !mid.runs[n].Fatal()
    ensures !mid.runs[n].status.Running? && !mid.runs[n].Fatal()
    ensures mid.runs[n].status.Paused? ==> mid.runs[n].branch == None
    ensures n in mid.awaiting <==> mid.runs[n].status.Paused?
  {
    hide RecordAfter;
    hide OutcomeOf;
    hide Counters;
    hide Placed;
    NodeAfterWave(g, beh, s, n);
  }

  lemma WaveCalm(g: Graph, beh: Behaviour, s: State, mid: State)
    requires Frontier(g, s) && mid == Published(Gathered(g, beh, s), s.ready)
    requires forall n :: n in s.ready ==> n in s.runs && !mid.runs[n].Fatal()
    ensures Calm(mid)
  {
    assert s.failures == [];
    hide Frontier;
    hide RecordAfter;
    hide OutcomeOf;
    FrontierBatch(g, s);
    forall n | n in s.runs
      ensures !mid.runs[n].status.Running? && !mid.runs[n].Fatal()
      ensures mid.runs[n].status.Paused? ==> mid.runs[n].branch == None
      ensures n in mid.awaiting <==> mid.runs[n].status.Paused?
    {
      NodeCalm(g, beh, s, mid, n);
    }
    assert mid.awaiting.Keys <= s.runs.Keys;
  }

  /** Once the worklist is empty, queueing the unlocked nodes in order completes the drain. */
  lemma DrainDone(g: Graph, mid: State, s: State, unlocked: seq<Id>)
    requires Midway(g, mid, s, [], unlocked, []) && Calm(mid)
    ensures Drained(g, mid, s.(ready := s.ready + Sorted(unlocked)))
  {
    var t := s.(ready := s.ready + Sorted(unlocked));
    QueueGrows(s.ready, unlocked);
    assert Nodes([]) == {} && Elements([]) == {};
    CountersCarryOver(g, s, {}, t, {});
    forall n | n in g.nodes ensures Placed(g, t, Elements(t.ready), {}, n) {
      assert Placed(g, s, Elements(s.ready) + Elements(unlocked), Elements([]), n);
    }
    assert t.ready[|s.ready|..] == Sorted(unlocked);
    DrainKeepsCalm(mid, s, t);
  }

  lemma QueueGrows(ready: seq<Id>, unlocked: seq<Id>)
    requires Distinct(ready) && Distinct(unlocked) && Elements(unlocked) !! Elements(ready)
    ensures Distinct(ready + Sorted(unlocked))
    ensures Elements(ready + Sorted(unlocked)) == Elements(ready) + Elements(unlocked)
  {
    SortedDistinct(unlocked);
    forall i, j | 0 <= i < |ready| && 0 <= j < |unlocked| ensures ready[i] != Sorted(unlocked)[j] {
      assert ready[i] in Elements(ready) && Sorted(unlocked)[j] in unlocked;
    }
  }

  lemma DrainKeepsCalm(mid: State, s: State, t: State)
    requires SkipsOnly(mid, s) && Calm(mid) && Distinct(t.ready) && t == s.(ready := t.ready)
    ensures Calm(t)
  {
    forall n | n in t.runs
      ensures !t.runs[n].status.Running? && !t.runs[n].Fatal()
      ensures t.runs[n].status.Paused? ==> t.runs[n].branch == None
      ensures n in t.awaiting <==> t.runs[n].status.Paused?
    {
      assert n in mid.runs && (t.runs[n] == mid.runs[n] || t.runs[n].status.Skipped?);
    }
    assert t.awaiting.Keys == mid.awaiting.Keys <= mid.runs.Keys;
  }

  /** Drain the worklist and queue the unlocked nodes, sorted. */
  method Unblock(g: Graph, mid: State, settling: seq<Settling>) returns (t: State)
    requires g.Valid() && Midway(g, mid, mid, settling, [], []) && Calm(mid)
    ensures Drained(g, mid, t)
  {
    var s, unlocked := Drain(g, mid, settling);
    DrainDone(g, mid, s, unlocked);
    t := s.(ready := s.ready + Sorted(unlocked));
  }

  /** One turn of the driving loop. */
  method RunWave(g: Graph, beh: Behaviour, s: State, maxConcurrency: Option<nat>) returns (t: State, peak: nat)
    requires g.Valid() && Frontier(g, s) && s.ready != []
    requires maxConcurrency.Some? ==> maxConcurrency.value >= 1
    ensures WaveStep(g, beh, s, t)
    ensures maxConcurrency.Some? ==> peak <= maxConcurrency.value
    ensures t.failures == [] ==> Frontier(g, t) && |PendingNodes(t.runs)| < |PendingNodes(s.runs)|
  {
    FrontierBatch(g, s);
    var gathered;
    gathered, peak := Gather(g, beh, s, maxConcurrency);
    BatchFinished(g, beh, s);
    var mid, settling, fatal := Collect(gathered, s.ready);
    if fatal != [] {
      t := mid.(failures := fatal);
    } else {
      WaveMidway(g, beh, s, mid);
      t := Unblock(g, mid, settling);
      FewerPending(g, beh, s, mid, t);
    }
  }

  lemma BatchFinished(g: Graph, beh: Behaviour, s: State)
    requires Frontier(g, s)
    ensures var runs := Gathered(g, beh, s).runs;
            forall n :: n in s.ready ==> n in runs && runs[n].status in {Completed, Failed, Paused}
  {
    FrontierBatch(g, s);
    forall n | n in s.ready ensures n in s.runs && RecordAfter(g, beh, s, n).status in {Completed, Failed, Paused} {
      FinishedStatus(g, n, Some(s.waves + 1), OutcomeOf(g, beh, s, n));
    }
  }

  lemma FewerPending(g: Graph, beh: Behaviour, s: State, mid: State, t: State)
    requires Frontier(g, s) && s.ready != [] && mid == Published(Gathered(g, beh, s), s.ready) && Drained(g, mid, t)
    ensures |PendingNodes(t.runs)| < |PendingNodes(s.runs)|
  {
    hide Frontier;
    FrontierBatch(g, s);
    BatchFinished(g, beh, s);
    var n := s.ready[0];
    assert n in s.ready;
    forall m | m in PendingNodes(t.runs) ensures m in PendingNodes(s.runs) {
      assert mid.runs[m] == RecordAfter(g, beh, s, m);
    }
    assert n !in PendingNodes(t.runs);
    StrictSubset(PendingNodes(t.runs), PendingNodes(s.runs), n);
  }

  /** A run of the driving loop: every step is one wave. */
  ghost predicate Driven(g: Graph, beh: Behaviour, durable: bool, start: World, trace: seq<World>) {
    && trace != []
    && if |trace| == 1 then trace[0] == start
       else
         var before := trace[..|trace| - 1];
         Driven(g, beh, durable, start, before) && WaveNext(g, beh, durable, before[|before| - 1], trace[|trace| - 1])
  }

  lemma DrivenGrows(g: Graph, beh: Behaviour, durable: bool, start: World, trace: seq<World>, w: World)
    requires Driven(g, beh, durable, start, trace) && WaveNext(g, beh, durable, trace[|trace| - 1], w)
    ensures Driven(g, beh, durable, start, trace + [w])
    ensures (trace + [w])[|trace + [w]| - 1] == w && w.state.inputs == trace[|trace| - 1].state.inputs
  {
    assert (trace + [w])[..|trace|] == trace;
  }

  lemma {:induction false} DrivenStart(g: Graph, beh: Behaviour, durable: bool, start: World, trace: seq<World>)
    requires Driven(g, beh, durable, start, trace)
    ensures trace[0] == start
    decreases |trace|
  {
    if |trace| > 1 {
      var before := trace[..|trace| - 1];
      DrivenStart(g, beh, durable, start, before);
      assert before[0] == trace[0];
    }
  }

  /** After the loop: a paused run is saved, the frontier of a finished durable run is deleted. */
  method Conclude(g: Graph, durable: bool, w: World) returns (v: World, status: RunStatus)
    requires g.Valid() && Exited(w.state) && Standing(g, w.state)
    ensures ExitNext(durable, w, v) && v.state == w.state
    ensures Verdict(g, v.state, status) && Leaves(g, v.state, status, durable, w.saved, v.saved)
  {
    hide Frontier;
    v, status := w, StatusOf(w.state);
    if status.RunPaused? {
      v := World(w.state, Some(Save(w.state)));
    } else if durable {
      v := World(w.state, None);
    }
    EndVerdict(g, w.state);
    EndLeaves(g, durable, w, v);
  }

  /** A wave, and the save that follows it. */
  method Turn(g: Graph, beh: Behaviour, maxConcurrency: Option<nat>, durable: bool, w: World)
    returns (v: World, peak: nat)
    requires g.Valid() && Frontier(g, w.state) && w.state.ready != []
    requires maxConcurrency.Some? ==> maxConcurrency.value >= 1
    ensures WaveNext(g, beh, durable, w, v)
    ensures maxConcurrency.Some? ==> peak <= maxConcurrency.value
    ensures Standing(g, v.state)
    ensures v.state.failures == [] ==>
              Frontier(g, v.state) && |PendingNodes(v.state.runs)| < |PendingNodes(w.state.runs)|
  {
    var t;
    t, peak := RunWave(g, beh, w.state, maxConcurrency);
    WaveFails(g, beh, w.state, t);
    if durable && t.failures == [] {
      v := World(t, Some(Save(t)));
    } else {
      v := World(t, w.saved);
    }
  }

  /** `_drive`: run waves until nothing is ready or something has failed, saving the frontier
      after each wave when `durable`; then save or delete the checkpoint. The worlds the run
      went through are returned as a ghost. */
  method DriveLoop(g: Graph, beh: Behaviour, maxConcurrency: Option<nat>, durable: bool, w0: World)
    returns (w: World, status: RunStatus, peak: nat, ghost trace: seq<World>)
    requires g.Valid() && Frontier(g, w0.state)
    requires maxConcurrency.Some? ==> maxConcurrency.value >= 1
    ensures Driven(g, beh, durable, w0, trace) && ExitNext(durable, trace[|trace| - 1], w)
    ensures Verdict(g, w.state, status) && Leaves(g, w.state, status, durable, w0.saved, w.saved)
    ensures maxConcurrency.Some? ==> peak <= maxConcurrency.value
    ensures w.state.inputs == w0.state.inputs
  {
    hide Frontier;
    hide WaveNext;
    hide ExitNext;
    FrontierStands(g, w0.state);
    w, peak, trace := w0, 0, [w0];
    while w.state.ready != [] && w.state.failures == []
      invariant Driven(g, beh, durable, w0, trace) && trace[|trace| - 1] == w
      invariant w.state.inputs == w0.state.inputs
      invariant Standing(g, w.state)
      invariant !durable ==> w.saved == w0.saved
      invariant maxConcurrency.Some? ==> peak <= maxConcurrency.value
      decreases w.state.failures == [], |PendingNodes(w.state.runs)|
    {
      var wavePeak;
      w, wavePeak := Turn(g, beh, maxConcurrency, durable, w);
      peak := if wavePeak > peak then wavePeak else peak;
      DrivenGrows(g, beh, durable, w0, trace, w);
      trace := trace + [w];
    }
    w, status := Conclude(g, durable, w);
  }

  // ------------------------------------------------------------ starting and resuming

  ghost predicate AnsweredWorklist(s: State, w: seq<Settling>, done: set<Id>) {
    && (forall i :: i in w ==> i.node in done && i == Settling(i.node, None, false, false))
    && (forall n :: n in done ==> Settling(n, None, false, false) in w)
    && forall i, j :: 0 <= i < j < |w| ==> w[i].node != w[j].node
  }

  lemma AnsweredOneMore(s: State, answers: map<Id, Outputs>, done: set<Id>, n: Id, w: seq<Settling>)
    requires n !in done && n in s.runs && done + {n} <= answers.Keys && AnsweredWorklist(s, w, done)
    ensures var before := AnsweredFor(s, answers, done);
            AnsweredFor(s, answers, done + {n}) ==
            before.(runs := before.runs[n := s.runs[n].(outputs := answers[n], status := Completed)],
                    completed := before.completed[n := answers[n]], pool := before.pool[n := answers[n]])
    ensures AnsweredWorklist(s, w + [Settling(n, None, false, false)], done + {n})
  {
    hide AnsweredWorklist;
    var before, after := AnsweredFor(s, answers, done), AnsweredFor(s, answers, done + {n});
    var given, given' := map m | m in done :: answers[m], map m | m in done + {n} :: answers[m];
    assert given' == given[n := answers[n]];
    MergeUpdate(s.completed, given, n, answers[n]);
    MergeUpdate(s.pool, given, n, answers[n]);
    assert after.runs == before.runs[n := s.runs[n].(outputs := answers[n], status := Completed)];
    AnsweredListGrows(s, w, done, n);
  }

  lemma AnsweredListGrows(s: State, w: seq<Settling>, done: set<Id>, n: Id)
    requires n !in done && AnsweredWorklist(s, w, done)
    ensures AnsweredWorklist(s, w + [Settling(n, None, false, false)], done + {n})
  {}

  lemma AnsweredMidway(g: Graph, s: State, answers: map<Id, Outputs>, w: seq<Settling>)
    requires Frontier(g, s) && s.awaiting.Keys <= answers.Keys && AnsweredWorklist(s, w, s.awaiting.Keys)
    ensures Midway(g, Answered(s, answers), Answered(s, answers), w, [], []) && Calm(Answered(s, answers))
  {
    var t := Answered(s, answers);
    forall i | i in w ensures Matches(t.runs, i) { assert s.runs[i.node].status.Paused?; }
    assert Nodes(w) == s.awaiting.Keys by {
      forall n | n in s.awaiting ensures n in Nodes(w) { assert Settling(n, None, false, false) in w; }
    }
    assert Elements([]) == {} && Elements(t.ready) + Elements([]) == Elements(s.ready);
    AnsweredTally(g, s, answers);
  }

  lemma AnsweredTally(g: Graph, s: State, answers: map<Id, Outputs>)
    requires Frontier(g, s) && s.awaiting.Keys <= answers.Keys
    ensures Tally(g, Answered(s, answers), s.awaiting.Keys, Elements(s.ready), {})
  {
    var t := Answered(s, answers);
    CountersCarryOver(g, s, {}, t, s.awaiting.Keys);
    forall n | n in g.nodes ensures Placed(g, t, Elements(s.ready), {}, n) {
      assert Placed(g, s, Elements(s.ready), {}, n);
    }
  }

  /** Each answer settles the node that asked. Any order of answers will do. */
  method Answer(s0: State, answers: map<Id, Outputs>) returns (s: State, settling: seq<Settling>)
    requires s0.awaiting.Keys <= answers.Keys && s0.awaiting.Keys <= s0.runs.Keys
    ensures s == Answered(s0, answers) && AnsweredWorklist(s0, settling, s0.awaiting.Keys)
  {
    s, settling := s0, [];
    var todo, done: set<Id> := s0.awaiting.Keys, {};
    AnsweredNone(s0, answers);
    while todo != {}
      invariant todo !! done && todo + done == s0.awaiting.Keys
      invariant AnsweredWorklist(s0, settling, done)
      invariant s == AnsweredFor(s0, answers, done)
      decreases todo
    {
      var n :| n in todo;
      AnsweredOneMore(s0, answers, done, n, settling);
      var rec := s.runs[n].(outputs := answers[n], status := Completed);
      s := s.(runs := s.runs[n := rec], completed := s.completed[n := rec.outputs], pool := s.pool[n := rec.outputs]);
      settling := settling + [Settling(n, None, false, false)];
      todo, done := todo - {n}, done + {n};
    }
    assert done == s0.awaiting.Keys;
    s := s.(awaiting := map[]);
  }

  /** `resume` up to the driving loop: refuse if an answer is missing; otherwise answer the
      paused nodes and drain what that settles. */
  method Reopen(g: Graph, c: Checkpoint, answers: map<Id, Outputs>) returns (r: Result<State, set<Id>>)
    requires g.Valid() && Frontier(g, Restore(g, c))
    ensures r.Failure? <==> !(c.awaiting.Keys <= answers.Keys)
    ensures r.Failure? ==> r.error == c.awaiting.Keys - answers.Keys && r.error != {}
    ensures r.Success? ==> ResumeStep(g, answers, c, r.value)
  {
    var missing := c.awaiting.Keys - answers.Keys;
    if missing != {} {
      return Failure(missing);
    }
    assert forall n :: n in c.awaiting && n !in answers ==> n in missing;
    var s0 := Restore(g, c);
    FrontierBatch(g, s0);
    var s, settling := Answer(s0, answers);
    AnsweredMidway(g, s0, answers, settling);
    var t := Unblock(g, s, settling);
    return Success(t);
  }

  lemma AnsweredNone(s: State, answers: map<Id, Outputs>)
    ensures AnsweredFor(s, answers, {}) == s
  {
    var t := AnsweredFor(s, answers, {});
    assert t.runs == s.runs && t.completed == s.completed && t.pool == s.pool;
  }

  class RunState {
    const graph: Graph
    const inputs: Outputs
    var pool: map<Id, Outputs>
    var pending: map<Id, int>
    var taken: map<Id, int>
    var runs: map<Id, NodeRun>
    var completed: map<Id, Outputs>
    var ready: seq<Id>
    var waves: nat
    var failures: seq<Id>
    var awaiting: map<Id, Outputs>
    /** What the run store holds for this run. */
    var saved: Option<Checkpoint>

    /** `run`: a fresh state, every counter at its in-degree and the sorted roots ready. */
    constructor Start(g: Graph, runInputs: Outputs)
      requires g.Valid()
      ensures graph == g && Model() == Initial(g, runInputs) && saved == None
      ensures Frontier(g, Model())
    {
      var s := Initial(g, runInputs);
      graph, inputs, saved := g, runInputs, None;
      pool, pending, taken, runs, completed := s.pool, s.pending, s.taken, s.runs, s.completed;
      ready, waves, failures, awaiting := s.ready, s.waves, s.failures, s.awaiting;
      new;
      InitialFrontier(g, runInputs);
    }

    function Model(): State reads this {
      State(inputs, pool, pending, taken, runs, completed, ready, waves, failures, awaiting)
    }

    /** `_drain_settles` on the run's own fields; returns the ready nodes. */
    method DrainSettles(start: seq<Settling>) returns (unlocked: seq<Id>)
      requires graph.Valid() && Midway(graph, Model(), Model(), start, [], [])
      modifies this`pending, this`taken, this`runs
      ensures Midway(graph, old(Model()), Model(), [], unlocked, [])
    {
      var s;
      s, unlocked := Drain(graph, Model(), start);
      pending, taken, runs := s.pending, s.taken, s.runs;
      assert Model() == s;
    }

    method Assign(w: World)
      requires w.state.inputs == inputs
      modifies this
      ensures Model() == w.state && saved == w.saved
    {
      var s := w.state;
      pool, pending, taken, runs, completed := s.pool, s.pending, s.taken, s.runs, s.completed;
      ready, waves, failures, awaiting, saved := s.ready, s.waves, s.failures, s.awaiting, w.saved;
    }

    /** `resume` on the run's own fields; with an answer missing nothing changes. */
    method Resume(answers: map<Id, Outputs>) returns (missing: set<Id>)
      requires graph.Valid() && saved.Some? && Frontier(graph, Restore(graph, saved.value))
      requires saved.value.inputs == inputs
      modifies this
      ensures missing == old(saved.value).awaiting.Keys - answers.Keys
      ensures missing != {} ==> Model() == old(Model()) && saved == old(saved)
      ensures missing == {} ==> ResumeNext(graph, answers, old(World(Model(), saved)), World(Model(), saved))
    {
      var r := Reopen(graph, saved.value, answers);
      if r.Failure? {
        return r.error;
      }
      missing := {};
      Assign(World(r.value, saved));
    }

    /** `_drive` on the run's own fields. */
    method Drive(beh: Behaviour, maxConcurrency: Option<nat>, durable: bool)
      returns (status: RunStatus, peak: nat, ghost trace: seq<World>)
      requires graph.Valid() && Frontier(graph, Model())
      requires maxConcurrency.Some? ==> maxConcurrency.value >= 1
      modifies this
      ensures Driven(graph, beh, durable, old(World(Model(), saved)), trace)
      ensures ExitNext(durable, trace[|trace| - 1], World(Model(), saved))
      ensures Verdict(graph, Model(), status) && Leaves(graph, Model(), status, durable, old(saved), saved)
      ensures maxConcurrency.Some? ==> peak <= maxConcurrency.value
    {
      var w;
      w, status, peak, trace := DriveLoop(graph, beh, maxConcurrency, durable, World(Model(), saved));
      Assign(w);
    }

    /** `resume` as a whole. What it needs is what a paused `Drive` leaves behind, and it leaves the same
        behind when the run pauses again. */
    method ResumeRun(answers: map<Id, Outputs>, beh: Behaviour, maxConcurrency: Option<nat>, durable: bool)
      returns (r: Result<RunStatus, set<Id>>, peak: nat, ghost trace: seq<World>)
      requires graph.Valid() && saved.Some? && Frontier(graph, Restore(graph, saved.value))
      requires saved.value.inputs == inputs
      requires maxConcurrency.Some? ==> maxConcurrency.value >= 1
      modifies this
      ensures r.Success? <==> old(saved.value).awaiting.Keys <= answers.Keys
      ensures r.Failure? ==>
                && r.error == old(saved.value).awaiting.Keys - answers.Keys
                && Model() == old(Model()) && saved == old(saved)
      ensures r.Success? ==>
                && trace != [] && ResumeNext(graph, answers, old(World(Model(), saved)), trace[0])
                && Driven(graph, beh, durable, trace[0], trace)
                && Verdict(graph, Model(), r.value) && Leaves(graph, Model(), r.value, durable, old(saved), saved)
                && (maxConcurrency.Some? ==> peak <= maxConcurrency.value)
    {
      var missing := Resume(answers);
      if missing != {} {
        return Failure(missing), 0, [];
      }
      ghost var reopened := World(Model(), saved);
      var status;
      status, peak, trace := Drive(beh, maxConcurrency, durable);
      DrivenStart(graph, beh, durable, reopened, trace);
      r := Success(status);
    }
  }
}
