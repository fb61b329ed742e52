/** Set arithmetic behind the counters, and what the frontier invariant implies. */
module Frontiers {
  import opened Wrappers
  import opened Ordering
  import opened Graphs
  import opened Engine

  // ------------------------------------------------------------ counting edges

  ghost function TakenBundle(g: Graph, runs: map<Id, NodeRun>, a: Id, b: Id): set<Edge> {
    set e | e in g.edges && e.source == a && e.target == b && Takes(g, runs, e)
  }

  lemma DisjointUnion<T>(whole: set<T>, a: set<T>, b: set<T>)
    requires whole == a + b && a !! b
    ensures |whole| == |a| + |b|
  {}

  lemma UncountedSplit(g: Graph, runs: map<Id, NodeRun>, w: set<Id>, q: Id, n: Id)
    requires q in w && SettledIn(runs, q)
    ensures |Uncounted(g, runs, w, n)| == |Uncounted(g, runs, w - {q}, n)| + |g.Bundle(q, n)|
  {
    hide SettledIn;
    DisjointUnion(Uncounted(g, runs, w, n), Uncounted(g, runs, w - {q}, n), g.Bundle(q, n));
  }

  lemma TakenInSplit(g: Graph, runs: map<Id, NodeRun>, w: set<Id>, q: Id, n: Id)
    requires q in w && SettledIn(runs, q)
    ensures |TakenIn(g, runs, w - {q}, n)| == |TakenIn(g, runs, w, n)| + |TakenBundle(g, runs, q, n)|
  {
    hide SettledIn;
    hide Takes;
    DisjointUnion(TakenIn(g, runs, w - {q}, n), TakenIn(g, runs, w, n), TakenBundle(g, runs, q, n));
  }

  /** Taking one settled node off the worklist counts exactly its outgoing edges. */
  lemma OffWorklist(g: Graph, runs: map<Id, NodeRun>, w: set<Id>, q: Id, n: Id)
    requires q in w && SettledIn(runs, q)
    ensures |Uncounted(g, runs, w, n)| == |Uncounted(g, runs, w - {q}, n)| + |g.Bundle(q, n)|
    ensures |TakenIn(g, runs, w - {q}, n)| == |TakenIn(g, runs, w, n)| + |TakenBundle(g, runs, q, n)|
  {
    hide SettledIn;
    hide Uncounted;
    hide TakenIn;
    hide TakenBundle;
    hide Graph.Bundle;
    UncountedSplit(g, runs, w, q, n);
    TakenInSplit(g, runs, w, q, n);
  }

  /** Records that change only inside the worklist leave the counted edges alone. */
  lemma SameCounted(g: Graph, runs: map<Id, NodeRun>, w: set<Id>, runs': map<Id, NodeRun>, w': set<Id>, n: Id)
    requires forall m :: (SettledIn(runs, m) && m !in w) <==> (SettledIn(runs', m) && m !in w')
    requires forall m :: SettledIn(runs, m) && m !in w ==> m in runs' && runs'[m] == runs[m]
    ensures Uncounted(g, runs', w', n) == Uncounted(g, runs, w, n)
    ensures TakenIn(g, runs', w', n) == TakenIn(g, runs, w, n)
  {}

  lemma CountersCarryOver(g: Graph, s: State, w: set<Id>, t: State, w': set<Id>)
    requires Domains(g, s) && Domains(g, t) && Counters(g, s, w)
    requires t.pending == s.pending && t.taken == s.taken
    requires forall m :: (SettledIn(s.runs, m) && m !in w) <==> (SettledIn(t.runs, m) && m !in w')
    requires forall m :: SettledIn(s.runs, m) && m !in w ==> m in t.runs && t.runs[m] == s.runs[m]
    ensures Counters(g, t, w')
  {
    forall n | n in g.nodes ensures Exact(g, t, w', n) {
      assert Exact(g, s, w, n);
      SameCounted(g, s.runs, w, t.runs, w', n);
    }
  }

  lemma ZeroMeansAllCounted(g: Graph, s: State, w: set<Id>, n: Id)
    requires Domains(g, s) && Counters(g, s, w) && n in g.nodes && s.pending[n] == 0
    ensures forall e :: e in g.edges && e.target == n ==> Counted(s.runs, w, e)
  {
    assert Exact(g, s, w, n);
    assert Uncounted(g, s.runs, w, n) == {};
    forall e | e in g.edges && e.target == n ensures Counted(s.runs, w, e) {
      assert e !in Uncounted(g, s.runs, w, n);
    }
  }

  // ------------------------------------------------------------ why a node is where it is

  /** Every decided node has only settled predecessors; it was skipped exactly when it has
      predecessors and none of them took an edge to it. */
  ghost predicate Justified(g: Graph, runs: map<Id, NodeRun>) {
    && runs.Keys == g.nodes.Keys
    && forall n :: n in g.nodes && !runs[n].status.Pending? ==>
         && (forall e :: e in g.edges && e.target == n ==> SettledIn(runs, e.source))
         && (runs[n].status.Skipped? <==>
               g.In(n) != {} && forall e :: e in g.edges && e.target == n ==> !Takes(g, runs, e))
  }

  lemma FrontierJustified(g: Graph, s: State)
    requires Frontier(g, s)
    ensures Justified(g, s.runs)
  {
    forall n | n in g.nodes && !s.runs[n].status.Pending?
      ensures forall e :: e in g.edges && e.target == n ==> SettledIn(s.runs, e.source)
      ensures s.runs[n].status.Skipped? <==>
                g.In(n) != {} && forall e :: e in g.edges && e.target == n ==> !Takes(g, s.runs, e)
    {
      assert Placed(g, s, Elements(s.ready), {}, n) && Exact(g, s, {}, n);
      ZeroMeansAllCounted(g, s, {}, n);
      NoneTaken(g, s.runs, n);
    }
  }

  lemma NoneTaken(g: Graph, runs: map<Id, NodeRun>, n: Id)
    requires forall e :: e in g.edges && e.target == n ==> Counted(runs, {}, e)
    ensures |TakenIn(g, runs, {}, n)| == 0 <==> forall e :: e in g.edges && e.target == n ==> !Takes(g, runs, e)
  {
    if |TakenIn(g, runs, {}, n)| == 0 {
      forall e | e in g.edges && e.target == n ensures !Takes(g, runs, e) {
        assert e !in TakenIn(g, runs, {}, n);
      }
    } else {
      var e :| e in TakenIn(g, runs, {}, n);
    }
  }

  // ------------------------------------------------------------ draining leaves no choice

  lemma {:induction false} SameFate(g: Graph, s: State, t: State, u: State, n: Id)
    requires g.Valid() && g.Acyclic() && Drained(g, s, t) && Drained(g, s, u) && n in g.nodes
    ensures t.runs[n] == u.runs[n]
    decreases g.Rank(n)
  {
    hide Justified;
    hide Counters;
    hide Placed;
    hide Calm;
    forall e | e in g.edges && e.target == n ensures t.runs[e.source] == u.runs[e.source] {
      EdgeRaisesRank(g, e);
      SameFate(g, s, t, u, e.source);
    }
    FrontierJustified(g, t);
    FrontierJustified(g, u);
    if s.runs[n].status.Pending? {
      SkippedBoth(g, s, t, u, n);
      SkippedBoth(g, s, u, t, n);
    }
  }

  lemma SkippedBoth(g: Graph, s: State, t: State, u: State, n: Id)
    requires g.Valid() && Drained(g, s, t) && Drained(g, s, u) && n in g.nodes && s.runs[n].status.Pending?
    requires forall e :: e in g.edges && e.target == n ==> t.runs[e.source] == u.runs[e.source]
    ensures t.runs[n].status.Skipped? ==> u.runs[n].status.Skipped?
  {
    if t.runs[n].status.Skipped? {
      assert Placed(g, t, Elements(t.ready), {}, n) && Exact(g, t, {}, n);
      assert Placed(g, u, Elements(u.ready), {}, n) && Exact(g, u, {}, n);
      assert Uncounted(g, t.runs, {}, n) == Uncounted(g, u.runs, {}, n);
      assert TakenIn(g, t.runs, {}, n) == TakenIn(g, u.runs, {}, n);
    }
  }

  /** The state a drain ends in is determined by the state it started from. */
  lemma DrainedUnique(g: Graph, s: State, t: State, u: State)
    requires g.Valid() && g.Acyclic() && Drained(g, s, t) && Drained(g, s, u)
    ensures t == u
  {
    hide Graph.Valid;
    hide Exact;
    hide Calm;
    assert t.runs == u.runs by {
      forall n | n in g.nodes ensures t.runs[n] == u.runs[n] { SameFate(g, s, t, u, n); }
    }
    SameCounters(g, t, u);
    SameReady(g, t, u, |s.ready|);
  }

  lemma SameCounters(g: Graph, t: State, u: State)
    requires Frontier(g, t) && Frontier(g, u) && t.runs == u.runs
    ensures t.pending == u.pending && t.taken == u.taken
  {
    forall n | n in g.nodes ensures t.pending[n] == u.pending[n] && t.taken[n] == u.taken[n] {
      assert Exact(g, t, {}, n) && Exact(g, u, {}, n);
    }
  }

  lemma SameReady(g: Graph, t: State, u: State, k: nat)
    requires Frontier(g, t) && Frontier(g, u) && t.runs == u.runs && t.pending == u.pending
    requires k <= |t.ready| && k <= |u.ready| && t.ready[..k] == u.ready[..k]
    requires Ascending(t.ready[k..]) && Ascending(u.ready[k..])
    ensures t.ready == u.ready
  {
    forall n ensures n in t.ready <==> n in u.ready {
      SameDue(g, t, u, n);
      SameDue(g, u, t, n);
    }
    TailElements(t.ready, u.ready, k);
    TailElements(u.ready, t.ready, k);
    AscendingSetUnique(t.ready[k..], u.ready[k..]);
    assert t.ready == t.ready[..k] + t.ready[k..] && u.ready == u.ready[..k] + u.ready[k..];
  }

  lemma SameDue(g: Graph, t: State, u: State, n: Id)
    requires Frontier(g, t) && Frontier(g, u)
    requires t.runs == u.runs && t.pending == u.pending
    ensures n in t.ready ==> n in u.ready
  {
    if n in t.ready {
      assert n in Elements(t.ready);
      assert Placed(g, t, Elements(t.ready), {}, n);
      assert Placed(g, u, Elements(u.ready), {}, n);
    }
  }

  lemma TailElements(a: seq<Id>, b: seq<Id>, k: nat)
    requires Distinct(a) && Distinct(b) && k <= |a| && k <= |b| && a[..k] == b[..k]
    requires forall n :: n in a ==> n in b
    ensures forall n :: n in a[k..] ==> n in b[k..]
    ensures Distinct(a[k..])
  {
    assert forall j :: 0 <= j < k ==> a[j] == a[..k][j] == b[..k][j] == b[j];
    forall n | n in a[k..] ensures n in b[k..] {
      var i :| k <= i < |a| && a[i] == n;
      assert n in a;
      var j :| 0 <= j < |b| && b[j] == n;
      assert b[k..][j - k] == n;
    }
  }

  // ------------------------------------------------------------ the batch of a wave

  lemma FatalElements(runs: map<Id, NodeRun>, batch: seq<Id>)
    ensures forall n :: n in FatalOf(runs, batch) <==> n in batch && n in runs && runs[n].Fatal()
  {
    if batch != [] {
      FatalElements(runs, batch[..|batch| - 1]);
      assert batch == batch[..|batch| - 1] + [batch[|batch| - 1]];
    }
  }

  /** A dispatched node ends its wave completed, failed or paused. */
  lemma FinishedStatus(g: Graph, n: Id, wave: Option<nat>, o: Outcome)
    requires n in g.nodes
    ensures Finished(g, n, wave, o).status in {Completed, Failed, Paused}
    ensures Finished(g, n, wave, o).status.Paused? <==> o.Asks?
    ensures o.Asks? ==> Finished(g, n, wave, o).branch == None
  {}

  lemma NodeAfterWave(g: Graph, beh: Behaviour, s: State, n: Id)
    requires Frontier(g, s) && n in g.nodes
    ensures n in s.runs
    ensures n in s.ready ==> s.runs[n].status.Pending? && s.pending[n] == 0 && n !in s.awaiting
    ensures n in s.ready ==> var rec := RecordAfter(g, beh, s, n);
              && rec.status in {Completed, Failed, Paused}
              && (rec.status.Paused? <==> OutcomeOf(g, beh, s, n).Asks?)
              && (rec.status.Paused? ==> rec.branch == None)
    ensures n !in s.ready ==> RecordAfter(g, beh, s, n) == s.runs[n]
  {
    assert n in s.ready <==> n in Elements(s.ready);
    assert Placed(g, s, Elements(s.ready), {}, n);
    FinishedStatus(g, n, Some(s.waves + 1), OutcomeOf(g, beh, s, n));
  }

  lemma RecordMoves(g: Graph, beh: Behaviour, s: State, t: State, n: Id)
    requires WaveStep(g, beh, s, t) && n in s.runs
    ensures n in t.runs
    ensures var rec := RecordAfter(g, beh, s, n);
            || t.runs[n] == rec
            || (rec.status.Pending? && t.failures == []
                && t.runs[n] == rec.(status := NodeStatus.Skipped, wave := Some(s.waves + 1)))
  {
    hide Frontier;
    hide RecordAfter;
    hide OutcomeOf;
    hide FatalOf;
  }

  lemma FrontierBatch(g: Graph, s: State)
    requires Frontier(g, s)
    ensures Elements(s.ready) <= g.nodes.Keys == s.runs.Keys && s.awaiting.Keys <= s.runs.Keys
    ensures forall n :: n in s.ready ==> n in s.runs && s.runs[n].status.Pending?
  {
    forall n | n in s.ready ensures n in s.runs && s.runs[n].status.Pending? {
      assert n in Elements(s.ready);
      assert Placed(g, s, Elements(s.ready), {}, n);
    }
  }

  // ------------------------------------------------------------ the first state of a run

  lemma InitialFrontier(g: Graph, inputs: Outputs)
    requires g.Valid()
    ensures Frontier(g, Initial(g, inputs))
  {
    hide Graph.In;
    hide Graph.Valid;
    hide Exact;
    hide Placed;
    hide Sorted;
    hide Graph.Roots;
    hide Graph.Predecessors;
    var s := Initial(g, inputs);
    RootElements(g);
    SortedDistinct(g.Roots());
    assert Elements(s.ready) <= g.nodes.Keys && Calm(s);
    forall n | n in g.nodes
      ensures Exact(g, s, {}, n) && Placed(g, s, Elements(s.ready), {}, n)
    {
      assert n in Elements(s.ready) <==> g.In(n) == {};
      InitialNode(g, s, n);
    }
  }

  lemma InitialNode(g: Graph, s: State, n: Id)
    requires g.Valid() && Domains(g, s) && n in g.nodes && s.runs == map m | m in g.nodes :: FRESH
    requires s.pending[n] == |g.Predecessors(n)| && s.taken[n] == 0
    requires n in Elements(s.ready) <==> g.In(n) == {}
    ensures Exact(g, s, {}, n) && Placed(g, s, Elements(s.ready), {}, n)
  {
    IndegreeCounts(g, n);
    assert forall m :: !SettledIn(s.runs, m);
    assert Uncounted(g, s.runs, {}, n) == g.In(n);
    assert TakenIn(g, s.runs, {}, n) == {};
  }

  // ------------------------------------------------------------ where a finished node leads

  /** No error strategy, or a branch that no edge carries. */
  ghost predicate NothingAbsorbs(g: Graph, n: Id)
    requires n in g.nodes
  {
    var policy := g.nodes[n].retry;
    policy.onError.Fail?
      || (policy.onError.Branch? && forall e :: e in g.Out(n) ==> e.branch != Some(policy.errorBranch))
  }

  /** A failure ends the run exactly if nothing absorbs it. An absorbed one tells its successors what went
      wrong, and one that is routed takes the error edges, of which there is at least one, and no others. */
  lemma FailureVerdict(g: Graph, n: Id, failed: NodeRun)
    requires n in g.nodes && failed.status.Failed? && !failed.recovered && failed.error.Some?
    ensures var r := Absorb(g, n, failed);
            && (r.Fatal() <==> NothingAbsorbs(g, n))
            && (!r.Fatal() ==>
                  && r.Ran() && "error" in r.outputs && r.outputs["error"] == ErrorText(failed.error.value)
                  && (r.status.Failed? <==> g.nodes[n].retry.onError.Branch?))
    ensures var policy, r := g.nodes[n].retry, Absorb(g, n, failed);
            policy.onError.Default? ==>
              && r.status.Completed?
              && forall k :: k in policy.errorOutput && k != "error" ==>
                   k in r.outputs && r.outputs[k] == policy.errorOutput[k]
    ensures var policy, r := g.nodes[n].retry, Absorb(g, n, failed);
            r.status.Failed? && r.recovered ==>
              && (exists e :: e in g.Out(n) && EdgeTaken(policy, e, r.branch, false, true))
              && forall e :: e in g.Out(n) ==>
                   (EdgeTaken(policy, e, r.branch, false, true) <==> e.branch == Some(policy.errorBranch))
  {
    var policy := g.nodes[n].retry;
    if policy.onError.Branch? {
      if policy.errorBranch in Labels(g, n) {
        var e :| e in g.edges && e.source == n && e.branch.Some? && e.branch.value == policy.errorBranch;
        assert e in g.Out(n);
      } else {
        forall e | e in g.Out(n) ensures e.branch != Some(policy.errorBranch) {
          assert e.branch == Some(policy.errorBranch) ==> policy.errorBranch in Labels(g, n);
        }
      }
    }
  }

  /** A node that completes on a branch takes an edge of that branch, and besides those only unlabelled
      ones; one that completes without a branch never takes the edge kept for its failure. */
  lemma BranchLeadsOn(g: Graph, n: Id, wave: Option<nat>, outputs: Outputs, branch: Option<string>)
    requires n in g.nodes
    requires Finished(g, n, wave, Returned(outputs, branch)) == NodeRun(Completed, wave, outputs, branch, None, false)
    ensures branch.Some? ==>
              exists e :: e in g.Out(n) && e.branch == branch && EdgeTaken(g.nodes[n].retry, e, branch, false, false)
    ensures forall e :: e in g.Out(n) && EdgeTaken(g.nodes[n].retry, e, branch, false, false) ==>
              if branch.Some? then e.branch.None? || e.branch == branch
              else g.nodes[n].retry.onError.Branch? ==> e.branch != Some(g.nodes[n].retry.errorBranch)
  {
    if branch.Some? {
      if branch.value in Labels(g, n) {
        var e :| e in g.edges && e.source == n && e.branch.Some? && e.branch.value == branch.value;
        assert e in g.Out(n);
      } else {
        NotReturned(g, n, wave, outputs, branch.value);
      }
    }
  }

  /** A branch that no edge carries is a failure. */
  lemma NotReturned(g: Graph, n: Id, wave: Option<nat>, outputs: Outputs, branch: string)
    requires n in g.nodes && branch !in Labels(g, n)
    ensures Finished(g, n, wave, Returned(outputs, Some(branch))).error.Some?
  {}
}
