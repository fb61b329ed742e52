/** Runs that pause, crash and resume any number of times: what holds in every world they
    pass through, and why they all end alike. */
module Histories {
  import opened Wrappers
  import opened Ordering
  import opened Graphs
  import opened Engine
  import opened Frontiers

  // ------------------------------------------------------------ what a node can see

  ghost function Restricted(pool: map<Id, Outputs>, names: set<Id>): map<Id, Outputs> {
    map n | n in pool && n in names :: pool[n]
  }

  /** A node's behaviour depends on its predecessors' outputs, and in the pool only on the run
      inputs and on its ancestors. */
  ghost predicate Local(g: Graph, beh: Behaviour) {
    forall n, c {:trigger Visible(g, n, c)} :: beh(n, c) == beh(n, Visible(g, n, c))
  }

  ghost function Visible(g: Graph, n: Id, c: Context): Context {
    Context(c.upstream, Restricted(c.pool, g.Ancestors(n) + {RUN_NAMESPACE}))
  }

  /** The same behaviour, except that a node with a question gets its answer at once. */
  ghost function Resolved(beh: Behaviour, answers: map<Id, Outputs>): Behaviour {
    (n, c) => if beh(n, c).Asks? && n in answers then Returned(answers[n], None) else beh(n, c)
  }

  ghost function PoolOf(inputs: Outputs, runs: map<Id, NodeRun>): map<Id, Outputs> {
    map[RUN_NAMESPACE := inputs] + map n | RanIn(runs, n) && n in runs :: runs[n].outputs
  }

  ghost function UpstreamOf(g: Graph, runs: map<Id, NodeRun>, n: Id): map<Id, Outputs> {
    map p | p in runs && RanIn(runs, p) && g.HasEdge(p, n) :: runs[p].outputs
  }

  /** What the records say `n` sees. */
  ghost function View(g: Graph, inputs: Outputs, runs: map<Id, NodeRun>, n: Id): Context {
    Visible(g, n, Context(UpstreamOf(g, runs, n), PoolOf(inputs, runs)))
  }

  // ------------------------------------------------------------ records that are explained

  /** A record is what executing its node on the outputs of its ancestors gives. */
  ghost predicate Recorded(
    g: Graph, beh: Behaviour, answers: map<Id, Outputs>, inputs: Outputs, runs: map<Id, NodeRun>, n: Id)
    requires n in g.nodes && n in runs
  {
    var rec := runs[n];
    var view := View(g, inputs, runs, n);
    match rec.status
    case Pending => rec == FRESH
    case Skipped => rec == FRESH.(status := Skipped, wave := rec.wave)
    case Paused => beh(n, view).Asks? && rec == Finished(g, n, rec.wave, beh(n, view))
    case _ => rec == Finished(g, n, rec.wave, Resolved(beh, answers)(n, view))
  }

  ghost predicate Sound(g: Graph, beh: Behaviour, answers: map<Id, Outputs>, s: State) {
    && Justified(g, s.runs)
    && (forall n {:trigger Recorded(g, beh, answers, s.inputs, s.runs, n)} :: n in g.nodes ==>
          Recorded(g, beh, answers, s.inputs, s.runs, n))
    && forall n :: n in s.failures ==> n in s.runs && s.runs[n].Fatal()
  }

  /** The pool and the outputs handed to successors are those of the records, as far as any
      node still to be dispatched can tell. */
  ghost predicate Shown(g: Graph, s: State) {
    && s.pool == PoolOf(s.inputs, s.runs)
    && (forall p :: p in s.completed ==> RanIn(s.runs, p) && s.completed[p] == s.runs[p].outputs)
    && forall p, n ::
         RanIn(s.runs, p) && n in s.runs && s.runs[n].status.Pending? && g.HasEdge(p, n) ==> p in s.completed
  }

  lemma {:induction false} AncestorsSettled(g: Graph, runs: map<Id, NodeRun>, n: Id, a: Id)
    requires g.Valid() && g.Acyclic() && Justified(g, runs)
    requires n in g.nodes && !runs[n].status.Pending? && a in g.Ancestors(n)
    ensures SettledIn(runs, a)
    decreases g.Rank(n)
  {
    var e := LastEdge(g, a, n);
    EdgeRaisesRank(g, e);
    if e.source != a {
      AncestorsSettled(g, runs, e.source, a);
    }
  }

  /** Both records were published, or neither, and with the same outputs. */
  ghost predicate SameOutputs(runs: map<Id, NodeRun>, runs': map<Id, NodeRun>, a: Id) {
    && a in runs && a in runs'
    && runs'[a].Ran() == runs[a].Ran() && runs'[a].outputs == runs[a].outputs
  }

  lemma PoolStable(inputs: Outputs, runs: map<Id, NodeRun>, runs': map<Id, NodeRun>, names: set<Id>)
    requires runs.Keys == runs'.Keys
    requires forall a :: a in names && a != RUN_NAMESPACE ==> SameOutputs(runs, runs', a)
    requires RUN_NAMESPACE !in runs
    ensures Restricted(PoolOf(inputs, runs'), names) == Restricted(PoolOf(inputs, runs), names)
  {
    var pool, pool' := PoolOf(inputs, runs), PoolOf(inputs, runs');
    forall m | m in names ensures (m in pool <==> m in pool') && (m in pool ==> pool[m] == pool'[m]) {}
  }

  lemma ViewStable(g: Graph, inputs: Outputs, runs: map<Id, NodeRun>, runs': map<Id, NodeRun>, n: Id)
    requires g.Valid()
    requires forall a :: a in g.Ancestors(n) ==> SameOutputs(runs, runs', a)
    requires runs.Keys == runs'.Keys == g.nodes.Keys && RUN_NAMESPACE !in g.nodes
    ensures View(g, inputs, runs', n) == View(g, inputs, runs, n)
  {
    hide Graph.Reaches;
    hide PoolOf;
    forall p | g.HasEdge(p, n) ensures p in g.Ancestors(n) {
      var e :| e in g.edges && e.source == p && e.target == n;
      EdgeReaches(g, e);
    }
    assert UpstreamOf(g, runs', n) == UpstreamOf(g, runs, n);
    PoolStable(inputs, runs, runs', g.Ancestors(n) + {RUN_NAMESPACE});
  }

  // ------------------------------------------------------------ agreement

  ghost predicate Decided(rec: NodeRun) { !rec.status.Pending? && !rec.status.Paused? }

  ghost predicate SameBehaviour(beh: Behaviour, beh': Behaviour) {
    forall n, c :: beh(n, c) == beh'(n, c)
  }

  /** Two sound states of the same graph and inputs agree on every node decided in both,
      whatever waves, pauses or crashes led to either. */
  lemma {:induction false} Agreement(
    g: Graph, beh: Behaviour, answers: map<Id, Outputs>, s: State,
    beh': Behaviour, answers': map<Id, Outputs>, t: State, n: Id)
    requires g.Valid() && g.Acyclic() && RUN_NAMESPACE !in g.nodes && s.inputs == t.inputs
    requires SameBehaviour(Resolved(beh, answers), Resolved(beh', answers'))
    requires Sound(g, beh, answers, s) && Sound(g, beh', answers', t)
    requires n in g.nodes && Decided(s.runs[n]) && Decided(t.runs[n])
    ensures s.runs[n].Timeless() == t.runs[n].Timeless()
    decreases g.Rank(n)
  {
    forall a | a in g.Ancestors(n) ensures s.runs[a].Timeless() == t.runs[a].Timeless() {
      AncestorsSettled(g, s.runs, n, a);
      AncestorsSettled(g, t.runs, n, a);
      AncestorRank(g, a, n);
      Agreement(g, beh, answers, s, beh', answers', t, a);
    }
    forall e | e in g.edges && e.target == n ensures Takes(g, s.runs, e) <==> Takes(g, t.runs, e) {
      EdgeReaches(g, e);
      assert e.source in g.Ancestors(n);
      assert s.runs[e.source].Timeless() == t.runs[e.source].Timeless();
    }
    SameRecord(g, beh, answers, s, beh', answers', t, n);
  }

  lemma SameRecord(
    g: Graph, beh: Behaviour, answers: map<Id, Outputs>, s: State,
    beh': Behaviour, answers': map<Id, Outputs>, t: State, n: Id)
    requires g.Valid() && RUN_NAMESPACE !in g.nodes && s.inputs == t.inputs
    requires SameBehaviour(Resolved(beh, answers), Resolved(beh', answers'))
    requires Sound(g, beh, answers, s) && Sound(g, beh', answers', t)
    requires n in g.nodes && Decided(s.runs[n]) && Decided(t.runs[n])
    requires forall a :: a in g.Ancestors(n) ==> s.runs[a].Timeless() == t.runs[a].Timeless()
    requires forall e :: e in g.edges && e.target == n ==> (Takes(g, s.runs, e) <==> Takes(g, t.runs, e))
    ensures s.runs[n].Timeless() == t.runs[n].Timeless()
  {
    forall a | a in g.Ancestors(n)
      ensures s.runs[a].Ran() == t.runs[a].Ran() && s.runs[a].outputs == t.runs[a].outputs
    {
      assert s.runs[a].Timeless() == t.runs[a].Timeless();
    }
    ViewStable(g, s.inputs, s.runs, t.runs, n);
    assert Recorded(g, beh, answers, s.inputs, s.runs, n);
    assert Recorded(g, beh', answers', t.inputs, t.runs, n);
    if s.runs[n].status.Skipped? {
      assert t.runs[n].status.Skipped?;
    } else {
      assert !t.runs[n].status.Skipped?;
      var o := Resolved(beh, answers)(n, View(g, s.inputs, s.runs, n));
      assert o == Resolved(beh', answers')(n, View(g, t.inputs, t.runs, n));
      FinishedTimeless(g, n, s.runs[n].wave, t.runs[n].wave, o);
    }
  }

  lemma FinishedTimeless(g: Graph, n: Id, w: Option<nat>, w': Option<nat>, o: Outcome)
    requires n in g.nodes
    ensures Finished(g, n, w, o).Timeless() == Finished(g, n, w', o).Timeless()
  {}

  lemma AncestorRank(g: Graph, a: Id, n: Id)
    requires g.Valid() && g.Acyclic() && a in g.Ancestors(n)
    ensures g.Rank(a) < g.Rank(n)
  {
    forall b | b in g.Ancestors(a) ensures b in g.Ancestors(n) { ReachesTransitive(g, b, a, n); }
    StrictSubset(g.Ancestors(a), g.Ancestors(n), a);
  }

  // ------------------------------------------------------------ a wave keeps every record explained

  lemma RecordedKeeps(g: Graph, beh: Behaviour, answers: map<Id, Outputs>, inputs: Outputs,
                      runs: map<Id, NodeRun>, runs': map<Id, NodeRun>, n: Id)
    requires g.Valid() && g.Acyclic() && RUN_NAMESPACE !in g.nodes && Justified(g, runs)
    requires runs'.Keys == runs.Keys && n in g.nodes && runs'[n] == runs[n]
    requires Recorded(g, beh, answers, inputs, runs, n)
    requires forall a :: SettledIn(runs, a) ==> runs'[a] == runs[a]
    ensures Recorded(g, beh, answers, inputs, runs', n)
  {
    if !runs[n].status.Pending? {
      forall a | a in g.Ancestors(n) ensures runs'[a] == runs[a] { AncestorsSettled(g, runs, n, a); }
      ViewStable(g, inputs, runs, runs', n);
    }
  }

  lemma ReadyAncestors(g: Graph, s: State, n: Id, a: Id)
    requires g.Valid() && g.Acyclic() && Frontier(g, s) && n in s.ready && a in g.Ancestors(n)
    ensures n in g.nodes && SettledIn(s.runs, a)
  {
    assert n in Elements(s.ready);
    assert Placed(g, s, Elements(s.ready), {}, n);
    ZeroMeansAllCounted(g, s, {}, n);
    var e := LastEdge(g, a, n);
    assert Counted(s.runs, {}, e);
    if e.source != a {
      FrontierJustified(g, s);
      AncestorsSettled(g, s.runs, e.source, a);
    }
  }

  /** A node that is dispatched sees what the records of its predecessors and ancestors say. */
  lemma DispatchedView(g: Graph, beh: Behaviour, s: State, n: Id)
    requires Local(g, beh) && Shown(g, s) && n in s.runs && s.runs[n].status.Pending?
    ensures beh(n, ContextOf(g, s, n)) == beh(n, View(g, s.inputs, s.runs, n))
  {
    var seen := ContextOf(g, s, n);
    assert seen.upstream == UpstreamOf(g, s.runs, n);
    assert Visible(g, n, seen) == View(g, s.inputs, s.runs, n);
  }

  lemma RecordedFirst(g: Graph, beh: Behaviour, answers: map<Id, Outputs>, inputs: Outputs,
                      runs: map<Id, NodeRun>, n: Id, wave: Option<nat>)
    requires n in g.nodes && n in runs && runs[n] == Finished(g, n, wave, beh(n, View(g, inputs, runs, n)))
    ensures Recorded(g, beh, answers, inputs, runs, n)
  {
    var o := beh(n, View(g, inputs, runs, n));
    FinishedStatus(g, n, wave, o);
    assert runs[n].wave == wave;
    if !o.Asks? {
      assert Resolved(beh, answers)(n, View(g, inputs, runs, n)) == o;
    }
  }

  lemma WaveRecord(g: Graph, beh: Behaviour, answers: map<Id, Outputs>, s: State, runs: map<Id, NodeRun>, n: Id)
    requires g.Valid() && g.Acyclic() && RUN_NAMESPACE !in g.nodes && Local(g, beh)
    requires Frontier(g, s) && Sound(g, beh, answers, s) && Shown(g, s) && n in g.nodes
    requires runs == map m | m in s.runs :: RecordAfter(g, beh, s, m)
    ensures Recorded(g, beh, answers, s.inputs, runs, n)
  {
    FrontierBatch(g, s);
    forall a | SettledIn(s.runs, a) ensures runs[a] == s.runs[a] { NodeAfterWave(g, beh, s, a); }
    if n in s.ready {
      DispatchedRecord(g, beh, answers, s, runs, n);
    } else {
      assert Recorded(g, beh, answers, s.inputs, s.runs, n);
      NodeAfterWave(g, beh, s, n);
      RecordedKeeps(g, beh, answers, s.inputs, s.runs, runs, n);
    }
  }

  lemma DispatchedRecord(g: Graph, beh: Behaviour, answers: map<Id, Outputs>, s: State, runs: map<Id, NodeRun>, n: Id)
    requires g.Valid() && g.Acyclic() && RUN_NAMESPACE !in g.nodes && Local(g, beh)
    requires Frontier(g, s) && Shown(g, s) && n in s.ready && n in g.nodes
    requires runs.Keys == s.runs.Keys && runs[n] == RecordAfter(g, beh, s, n)
    requires forall a :: SettledIn(s.runs, a) ==> runs[a] == s.runs[a]
    ensures Recorded(g, beh, answers, s.inputs, runs, n)
  {
    assert OutcomeOf(g, beh, s, n) == beh(n, View(g, s.inputs, runs, n)) by {
      NodeAfterWave(g, beh, s, n);
      ReadyView(g, s, runs, n);
      DispatchedView(g, beh, s, n);
    }
    RecordedFirst(g, beh, answers, s.inputs, runs, n, Some(s.waves + 1));
  }

  lemma ReadyView(g: Graph, s: State, runs: map<Id, NodeRun>, n: Id)
    requires g.Valid() && g.Acyclic() && RUN_NAMESPACE !in g.nodes && Frontier(g, s) && n in s.ready
    requires runs.Keys == s.runs.Keys && forall a :: SettledIn(s.runs, a) ==> runs[a] == s.runs[a]
    ensures View(g, s.inputs, runs, n) == View(g, s.inputs, s.runs, n)
  {
    forall a | a in g.Ancestors(n) ensures runs[a] == s.runs[a] { ReadyAncestors(g, s, n, a); }
    ViewStable(g, s.inputs, s.runs, runs, n);
  }

  /** Executing the batch keeps the reasons: its nodes had only settled predecessors, and an
      edge taken to them unless they are roots. */
  lemma WaveJustified(g: Graph, beh: Behaviour, s: State, runs: map<Id, NodeRun>)
    requires g.Valid() && Frontier(g, s) && runs == map m | m in s.runs :: RecordAfter(g, beh, s, m)
    ensures Justified(g, runs)
  {
    FrontierJustified(g, s);
    forall a | SettledIn(s.runs, a) ensures runs[a] == s.runs[a] { NodeAfterWave(g, beh, s, a); }
    forall n | n in g.nodes && !runs[n].status.Pending?
      ensures forall e :: e in g.edges && e.target == n ==> SettledIn(runs, e.source)
      ensures runs[n].status.Skipped? <==>
                g.In(n) != {} && forall e :: e in g.edges && e.target == n ==> !Takes(g, runs, e)
    {
      WaveReasons(g, beh, s, n);
      assert forall e :: e in g.edges && e.target == n ==> (Takes(g, runs, e) <==> Takes(g, s.runs, e));
    }
  }

  lemma WaveReasons(g: Graph, beh: Behaviour, s: State, n: Id)
    requires g.Valid() && Frontier(g, s) && Justified(g, s.runs) && n in g.nodes
    requires !RecordAfter(g, beh, s, n).status.Pending?
    ensures forall e :: e in g.edges && e.target == n ==> SettledIn(s.runs, e.source)
    ensures RecordAfter(g, beh, s, n).status.Skipped? <==>
              g.In(n) != {} && forall e :: e in g.edges && e.target == n ==> !Takes(g, s.runs, e)
  {
    NodeAfterWave(g, beh, s, n);
    if n in s.ready {
      assert n in Elements(s.ready);
      assert Placed(g, s, Elements(s.ready), {}, n) && Exact(g, s, {}, n);
      ZeroMeansAllCounted(g, s, {}, n);
      NoneTaken(g, s.runs, n);
    }
  }

  /** Skipping pending nodes keeps every record explained. */
  lemma DrainSound(g: Graph, beh: Behaviour, answers: map<Id, Outputs>, s: State, t: State)
    requires g.Valid() && g.Acyclic() && RUN_NAMESPACE !in g.nodes
    requires Sound(g, beh, answers, s) && Drained(g, s, t)
    ensures Sound(g, beh, answers, t)
  {
    FrontierJustified(g, t);
    forall n | n in g.nodes ensures Recorded(g, beh, answers, t.inputs, t.runs, n) {
      assert Recorded(g, beh, answers, s.inputs, s.runs, n);
      if t.runs[n] == s.runs[n] {
        RecordedKeeps(g, beh, answers, s.inputs, s.runs, t.runs, n);
      }
    }
  }

  lemma DrainShown(g: Graph, s: State, t: State)
    requires Shown(g, s) && Drained(g, s, t)
    ensures Shown(g, t)
  {
    forall n
      ensures RanIn(t.runs, n) <==> RanIn(s.runs, n)
      ensures RanIn(s.runs, n) ==> t.runs[n] == s.runs[n]
      ensures n in t.runs && t.runs[n].status.Pending? ==> s.runs[n].status.Pending?
    {
      assert n in s.runs ==> t.runs[n] == s.runs[n] || t.runs[n].status.Skipped?;
    }
    SamePool(s.inputs, s.runs, t.runs);
  }

  lemma SamePool(inputs: Outputs, runs: map<Id, NodeRun>, runs': map<Id, NodeRun>)
    requires forall n :: RanIn(runs', n) <==> RanIn(runs, n)
    requires forall n :: RanIn(runs, n) ==> n in runs' && runs'[n].outputs == runs[n].outputs
    ensures PoolOf(inputs, runs') == PoolOf(inputs, runs)
  {
    var pool, pool' := PoolOf(inputs, runs), PoolOf(inputs, runs');
    forall m ensures (m in pool <==> m in pool') && (m in pool ==> pool[m] == pool'[m]) {
      assert RanIn(runs', m) <==> RanIn(runs, m);
    }
  }

  /** `t` has the records of `s` except for nodes that now ran, whose outputs are the `gain`. */
  ghost predicate Gains(s: State, t: State, gain: map<Id, Outputs>) {
    && t.inputs == s.inputs && t.pool == s.pool + gain && t.completed == s.completed + gain
    && (forall n :: RanIn(t.runs, n) <==> RanIn(s.runs, n) || n in gain)
    && (forall n :: n in gain ==> n in t.runs && gain[n] == t.runs[n].outputs)
    && (forall n :: RanIn(s.runs, n) && n !in gain ==> n in t.runs && t.runs[n].outputs == s.runs[n].outputs)
    && forall n :: n in t.runs && t.runs[n].status.Pending? ==> n in s.runs && s.runs[n].status.Pending?
  }

  lemma GainsPool(s: State, t: State, gain: map<Id, Outputs>)
    requires Gains(s, t, gain) && s.pool == PoolOf(s.inputs, s.runs)
    ensures t.pool == PoolOf(t.inputs, t.runs)
  {
    hide NodeRun.Ran;
    var pool := PoolOf(t.inputs, t.runs);
    forall m ensures (m in pool <==> m in t.pool) && (m in pool ==> pool[m] == t.pool[m]) {
      assert RanIn(t.runs, m) <==> RanIn(s.runs, m) || m in gain;
    }
  }

  lemma GainsShown(g: Graph, s: State, t: State, gain: map<Id, Outputs>)
    requires Gains(s, t, gain) && Shown(g, s)
    ensures Shown(g, t)
  {
    GainsPool(s, t, gain);
    forall p | p in t.completed ensures RanIn(t.runs, p) && t.completed[p] == t.runs[p].outputs {
      assert p in gain || p in s.completed;
    }
    forall p, n | RanIn(t.runs, p) && n in t.runs && t.runs[n].status.Pending? && g.HasEdge(p, n)
      ensures p in t.completed
    {
      assert p in gain || RanIn(s.runs, p);
    }
  }

  lemma PublishShown(g: Graph, beh: Behaviour, s: State, mid: State)
    requires g.Valid() && Frontier(g, s) && Shown(g, s) && mid == Published(Gathered(g, beh, s), s.ready)
    ensures Shown(g, mid)
  {
    assert forall n :: n in s.ready ==> n in s.runs by { FrontierBatch(g, s); }
    forall n | n in s.runs ensures PublishedRecord(s.runs[n], mid.runs[n], n in s.ready) {
      NodeAfterWave(g, beh, s, n);
    }
    PublishGains(s, mid, s.ready);
    GainsShown(g, s, mid, RanOf(mid.runs, s.ready));
  }

  ghost predicate PublishedRecord(before: NodeRun, after: NodeRun, dispatched: bool) {
    && (dispatched ==> before.status.Pending? && !after.status.Pending?)
    && (!dispatched ==> after == before)
  }

  lemma PublishGains(s: State, mid: State, batch: seq<Id>)
    requires mid.inputs == s.inputs && mid.runs.Keys == s.runs.Keys && forall n :: n in batch ==> n in s.runs
    requires mid.pool == s.pool + RanOf(mid.runs, batch) && mid.completed == s.completed + RanOf(mid.runs, batch)
    requires forall n :: n in s.runs ==> PublishedRecord(s.runs[n], mid.runs[n], n in batch)
    ensures Gains(s, mid, RanOf(mid.runs, batch))
  {}

  lemma GatheredSound(g: Graph, beh: Behaviour, answers: map<Id, Outputs>, s: State, runs: map<Id, NodeRun>)
    requires g.Valid() && g.Acyclic() && RUN_NAMESPACE !in g.nodes && Local(g, beh)
    requires Frontier(g, s) && Sound(g, beh, answers, s) && Shown(g, s)
    requires runs == map m | m in s.runs :: RecordAfter(g, beh, s, m)
    ensures Justified(g, runs) && Settlements(s.runs, runs)
    ensures forall n {:trigger Recorded(g, beh, answers, s.inputs, runs, n)} :: n in g.nodes ==>
              Recorded(g, beh, answers, s.inputs, runs, n)
  {
    WaveJustified(g, beh, s, runs);
    forall n | n in g.nodes ensures Recorded(g, beh, answers, s.inputs, runs, n) {
      WaveRecord(g, beh, answers, s, runs, n);
    }
    forall n | SettledIn(s.runs, n) ensures runs[n] == s.runs[n] { NodeAfterWave(g, beh, s, n); }
  }

  /** One wave, completed or failed. */
  lemma WaveKeeps(g: Graph, beh: Behaviour, answers: map<Id, Outputs>, s: State, t: State)
    requires g.Valid() && g.Acyclic() && RUN_NAMESPACE !in g.nodes && Local(g, beh)
    requires Frontier(g, s) && Sound(g, beh, answers, s) && Shown(g, s) && WaveStep(g, beh, s, t)
    ensures t.inputs == s.inputs && Sound(g, beh, answers, t) && Settlements(s.runs, t.runs)
    ensures t.failures == [] ==> Frontier(g, t) && Shown(g, t)
  {
    var mid := Published(Gathered(g, beh, s), s.ready);
    GatheredSound(g, beh, answers, s, mid.runs);
    FatalElements(mid.runs, s.ready);
    if FatalOf(mid.runs, s.ready) == [] {
      assert Sound(g, beh, answers, mid);
      PublishShown(g, beh, s, mid);
      DrainKeeps(g, beh, answers, mid, t);
    }
  }

  lemma DrainKeeps(g: Graph, beh: Behaviour, answers: map<Id, Outputs>, s: State, t: State)
    requires g.Valid() && g.Acyclic() && RUN_NAMESPACE !in g.nodes
    requires Sound(g, beh, answers, s) && Shown(g, s) && Drained(g, s, t)
    ensures t.inputs == s.inputs && Sound(g, beh, answers, t) && Settlements(s.runs, t.runs)
    ensures Frontier(g, t) && Shown(g, t)
  {
    hide Sound;
    hide Shown;
    hide Frontier;
    DrainSound(g, beh, answers, s, t);
    DrainShown(g, s, t);
  }

  /** Every record settled in `runs` is still there, unchanged. */
  ghost predicate Settlements(runs: map<Id, NodeRun>, runs': map<Id, NodeRun>) {
    forall n :: SettledIn(runs, n) ==> n in runs' && runs'[n] == runs[n]
  }

  // ------------------------------------------------------------ checkpoints

  /** A checkpoint some sound run of this graph has written. */
  ghost predicate Trusted(g: Graph, beh: Behaviour, answers: map<Id, Outputs>, inputs: Outputs, c: Checkpoint) {
    && c.inputs == inputs && c.nodes.Keys == g.nodes.Keys && c.variables == PoolOf(inputs, c.nodes)
    && Frontier(g, Restore(g, c)) && Sound(g, beh, answers, Restore(g, c))
  }

  /** No node whose failure was routed to an error edge has a successor still to be decided. */
  ghost predicate Restorable(g: Graph, c: Checkpoint) {
    forall e :: e in g.edges && e.source in c.nodes && e.target in c.nodes && c.nodes[e.target].status.Pending? ==>
      !(c.nodes[e.source].status.Failed? && c.nodes[e.source].recovered)
  }

  lemma SavedTrusted(g: Graph, beh: Behaviour, answers: map<Id, Outputs>, s: State)
    requires Frontier(g, s) && Sound(g, beh, answers, s) && Shown(g, s)
    ensures Trusted(g, beh, answers, s.inputs, Save(s))
  {
    var r := Restore(g, Save(s));
    assert r.runs == s.runs;
    SameFrontier(g, s, r);
    assert Sound(g, beh, answers, r);
  }

  lemma SameFrontier(g: Graph, s: State, r: State)
    requires Frontier(g, s) && r.failures == s.failures && r.ready == s.ready && r.awaiting == s.awaiting
    requires r.pending == s.pending && r.taken == s.taken && r.runs == s.runs
    ensures Frontier(g, r)
  {
    CountersCarryOver(g, s, {}, r, {});
    forall n | n in g.nodes ensures Placed(g, r, Elements(r.ready), {}, n) {
      assert Placed(g, s, Elements(s.ready), {}, n);
    }
  }

  lemma NamespacesRestored(g: Graph, c: Checkpoint)
    requires RUN_NAMESPACE !in g.nodes && c.nodes.Keys == g.nodes.Keys && c.variables == PoolOf(c.inputs, c.nodes)
    ensures Restore(g, c).pool == PoolOf(c.inputs, c.nodes)
  {
    var pool := Restore(g, c).pool;
    forall m ensures (m in pool <==> m in c.variables) && (m in pool ==> pool[m] == c.variables[m]) {}
  }

  lemma RestoredShown(g: Graph, c: Checkpoint)
    requires RUN_NAMESPACE !in g.nodes && c.nodes.Keys == g.nodes.Keys && c.variables == PoolOf(c.inputs, c.nodes)
    requires Restorable(g, c)
    ensures Shown(g, Restore(g, c))
  {
    hide Takes;
    hide PoolOf;
    var r := Restore(g, c);
    RestoredRuns(g, c);
    NamespacesRestored(g, c);
    forall p, n | RanIn(r.runs, p) && n in r.runs && r.runs[n].status.Pending? && g.HasEdge(p, n)
      ensures p in r.completed
    {
      var e :| e in g.edges && e.source == p && e.target == n;
      assert r.runs[p].status.Completed?;
    }
  }

  /** Answering completes the paused nodes and touches no others. */
  lemma AnsweredRuns(g: Graph, s: State, answers: map<Id, Outputs>)
    requires Frontier(g, s) && s.awaiting.Keys <= answers.Keys
    ensures var t := Answered(s, answers);
            && t.runs.Keys == s.runs.Keys == g.nodes.Keys && t.inputs == s.inputs && t.failures == []
            && (forall n :: n in s.runs && n !in s.awaiting ==> t.runs[n] == s.runs[n])
            && (forall n :: n in s.awaiting ==>
                  n in s.runs && s.runs[n].status.Paused? && t.runs[n].status.Completed?)
            && Settlements(s.runs, t.runs)
  {
    hide Counters;
    hide Placed;
  }

  lemma AnsweredNode(g: Graph, beh: Behaviour, answers: map<Id, Outputs>, s: State, n: Id)
    requires g.Valid() && g.Acyclic() && RUN_NAMESPACE !in g.nodes && s.awaiting.Keys <= answers.Keys
    requires Frontier(g, s) && Sound(g, beh, answers, s) && n in g.nodes
    ensures var t := Answered(s, answers); Recorded(g, beh, answers, t.inputs, t.runs, n)
  {
    hide Frontier;
    hide Answered;
    hide Justified;
    AnsweredRuns(g, s, answers);
    assert Recorded(g, beh, answers, s.inputs, s.runs, n);
    hide Recorded;
    var t := Answered(s, answers);
    if n in s.awaiting {
      AnsweredRecord(g, beh, answers, s, t, n);
    } else {
      RecordedKeeps(g, beh, answers, s.inputs, s.runs, t.runs, n);
    }
  }

  lemma AnsweredSound(g: Graph, beh: Behaviour, answers: map<Id, Outputs>, s: State)
    requires g.Valid() && g.Acyclic() && RUN_NAMESPACE !in g.nodes && s.awaiting.Keys <= answers.Keys
    requires Frontier(g, s) && Sound(g, beh, answers, s)
    ensures Sound(g, beh, answers, Answered(s, answers)) && Settlements(s.runs, Answered(s, answers).runs)
  {
    hide Frontier;
    hide Answered;
    hide Justified;
    hide Recorded;
    var t := Answered(s, answers);
    AnsweredRuns(g, s, answers);
    AnsweredJustified(g, s, t);
    forall n | n in g.nodes ensures Recorded(g, beh, answers, t.inputs, t.runs, n) {
      AnsweredNode(g, beh, answers, s, n);
    }
  }

  lemma AnsweredJustified(g: Graph, s: State, t: State)
    requires Justified(g, s.runs) && t.runs.Keys == s.runs.Keys
    requires forall n :: n in s.runs && n !in s.awaiting ==> t.runs[n] == s.runs[n]
    requires forall n :: n in s.awaiting ==> n in s.runs && s.runs[n].status.Paused? && t.runs[n].status.Completed?
    ensures Justified(g, t.runs)
  {
    forall n | n in g.nodes && !t.runs[n].status.Pending?
      ensures forall e :: e in g.edges && e.target == n ==>
                SettledIn(t.runs, e.source) && (Takes(g, t.runs, e) <==> Takes(g, s.runs, e))
    {
      assert !s.runs[n].status.Pending?;
    }
  }

  lemma AnsweredRecord(g: Graph, beh: Behaviour, answers: map<Id, Outputs>, s: State, t: State, n: Id)
    requires g.Valid() && g.Acyclic() && RUN_NAMESPACE !in g.nodes && Justified(g, s.runs)
    requires s.awaiting.Keys <= answers.Keys && t == Answered(s, answers) && s.runs.Keys == g.nodes.Keys
    requires forall m :: m in s.awaiting ==> m in s.runs && s.runs[m].status.Paused?
    requires n in s.awaiting && n in g.nodes && Recorded(g, beh, answers, s.inputs, s.runs, n)
    ensures Recorded(g, beh, answers, t.inputs, t.runs, n)
  {
    forall a | a in g.Ancestors(n) ensures a in s.runs && t.runs[a] == s.runs[a] { AncestorsSettled(g, s.runs, n, a); }
    ViewStable(g, s.inputs, s.runs, t.runs, n);
    var view := View(g, t.inputs, t.runs, n);
    assert Resolved(beh, answers)(n, view) == Returned(answers[n], None);
  }

  lemma AnsweredShown(g: Graph, answers: map<Id, Outputs>, s: State, t: State)
    requires s.awaiting.Keys <= answers.Keys && Frontier(g, s) && Shown(g, s) && t == Answered(s, answers)
    ensures Shown(g, t)
  {
    AnsweredGains(s, answers, t);
    GainsShown(g, s, t, map n | n in s.awaiting :: answers[n]);
  }

  lemma AnsweredGains(s: State, answers: map<Id, Outputs>, t: State)
    requires s.awaiting.Keys <= answers.Keys && t == Answered(s, answers)
    requires forall n :: n in s.awaiting ==> n in s.runs && s.runs[n].status.Paused?
    ensures Gains(s, t, map n | n in s.awaiting :: answers[n])
  {}

  lemma AnsweredKeeps(g: Graph, beh: Behaviour, answers: map<Id, Outputs>, s: State, t: State)
    requires g.Valid() && g.Acyclic() && RUN_NAMESPACE !in g.nodes && s.awaiting.Keys <= answers.Keys
    requires Frontier(g, s) && Sound(g, beh, answers, s) && Shown(g, s) && t == Answered(s, answers)
    ensures t.inputs == s.inputs && Sound(g, beh, answers, t) && Shown(g, t) && Settlements(s.runs, t.runs)
  {
    AnsweredSound(g, beh, answers, s);
    AnsweredShown(g, answers, s, t);
  }

  /** A resume from a restorable checkpoint continues soundly, with everything settled in it kept. */
  lemma ResumeKeeps(g: Graph, beh: Behaviour, answers: map<Id, Outputs>, c: Checkpoint, t: State)
    requires g.Valid() && g.Acyclic() && RUN_NAMESPACE !in g.nodes
    requires Restorable(g, c) && Trusted(g, beh, answers, c.inputs, c) && ResumeStep(g, answers, c, t)
    ensures t.inputs == c.inputs && Sound(g, beh, answers, t) && Settlements(c.nodes, t.runs)
    ensures Frontier(g, t) && Shown(g, t)
  {
    var r := Restore(g, c);
    RestoredRuns(g, c);
    RestoredShown(g, c);
    AnsweredKeeps(g, beh, answers, r, Answered(r, answers));
    DrainKeeps(g, beh, answers, Answered(r, answers), t);
  }

  lemma RestoredRuns(g: Graph, c: Checkpoint)
    requires c.nodes.Keys == g.nodes.Keys
    ensures Restore(g, c).runs == c.nodes
  {}

  // ------------------------------------------------------------ histories

  /** `Next`, where a resume is made from restorable checkpoints only. */
  ghost predicate SafeNext(g: Graph, beh: Behaviour, answers: map<Id, Outputs>, durable: bool, w: World, v: World) {
    || WaveNext(g, beh, durable, w, v)
    || ExitNext(durable, w, v)
    || (ResumeNext(g, answers, w, v) && Restorable(g, w.saved.value))
  }

  ghost predicate History(
    g: Graph, beh: Behaviour, answers: map<Id, Outputs>, durable: bool, inputs: Outputs, trace: seq<World>)
  {
    && trace != []
    && if |trace| == 1 then trace[0] == World(Initial(g, inputs), None)
       else
         var before := trace[..|trace| - 1];
         && History(g, beh, answers, durable, inputs, before)
         && SafeNext(g, beh, answers, durable, before[|before| - 1], trace[|trace| - 1])
  }

  ghost predicate WorldOk(g: Graph, beh: Behaviour, answers: map<Id, Outputs>, inputs: Outputs, w: World) {
    && w.state.inputs == inputs && Sound(g, beh, answers, w.state)
    && (w.state.failures == [] ==> Frontier(g, w.state) && Shown(g, w.state))
    && (w.saved.Some? ==>
          && Trusted(g, beh, answers, inputs, w.saved.value)
          && Settlements(w.saved.value.nodes, w.state.runs))
  }
}
