/** When closing a pool can push it beyond its bound: exactly when the tasks that are at the lock before the
    `close` leave idle connections over, and with these the tasks that have a socket or will ask for one are
    more than `max_size`. */
module PoolClosing {
  import opened Pool
  import opened Wrappers

  // ------------------------------------------------------------ the line at the lock

  /** Who is at the lock, in order: its owner, or who runs on to take it, and those who wait. */
  function Line(s: State): seq<Task> {
    (if s.lock.Some? then [s.lock.value] else if s.running.Some? then [s.running.value] else []) + s.queue
  }

  function Places(tasks: map<Task, Place>, line: seq<Task>): (ps: seq<Place>)
    ensures |ps| == |line|
  {
    seq(|line|, i requires 0 <= i < |line| => if line[i] in tasks then tasks[line[i]] else Outside)
  }

  function LineOf(s: State): seq<Place> { Places(s.tasks, Line(s)) }

  /** How many sockets a task at the lock adds, or takes with it, by the time it has left the lock; an idle
      connection it takes out counts as one. */
  function Weight(place: Place): int {
    if place.Permitted? || place.Checking? then 1 else if place.Returning? || place.Dropping? then -1 else 0
  }

  function Gain(ps: seq<Place>): int { if ps == [] then 0 else Gain(ps[..|ps| - 1]) + Weight(ps[|ps| - 1]) }

  predicate Arrives(place: Place) { place.Permitted? || place.Checking? || place.Reaping? }

  /** How many of them are about to check a connection out. */
  function Arrivals(ps: seq<Place>): nat {
    if ps == [] then 0 else Arrivals(ps[..|ps| - 1]) + if Arrives(ps[|ps| - 1]) then 1 else 0
  }

  predicate Exhausted(limits: Limits, conn: Conn) { limits.maxUses != 0 && conn.uses >= limits.maxUses }

  /** What `n` checkouts leave of the idle connections, if they find none dead or stale. */
  function Rest(limits: Limits, idle: seq<Conn>, n: nat): (rest: seq<Conn>)
    ensures |rest| <= |idle|
    decreases |idle|
  {
    if idle == [] || n == 0 then idle
    else
      var conn := idle[|idle| - 1];
      Rest(limits, idle[..|idle| - 1], if Exhausted(limits, conn) then n else n - 1)
  }

  predicate InLine(place: Place) { AtLock(place) || InsideLock(place) }

  lemma MoverIsFirst(limits: Limits, s: State, step: Step)
    requires Safe(limits, s) && Enabled(s, step) && InLine(s.tasks[step.task])
    ensures Line(s) != [] && Line(s)[0] == step.task && step.task !in Line(s)[1..]
  {
    hide Books;
    var t := step.task;
    assert TaskOk(limits, s, t) && LineOk(s, t);
    if s.lock.None? && s.running.None? {
      assert t !in s.queue[1..];
    }
  }

  lemma OthersOutside(limits: Limits, s: State, step: Step)
    requires Safe(limits, s) && Enabled(s, step) && !InLine(s.tasks[step.task])
    ensures step.task !in Line(s)
  {
    hide Books;
    assert TaskOk(limits, s, step.task) && LineOk(s, step.task);
  }

  lemma OwnerMoves(limits: Limits, s: State, step: Step)
    requires Enabled(s, step) && InsideLock(s.tasks[step.task]) && s.lock == Some(step.task)
    requires s.running.Some? ==> s.tasks[step.task].Checking?
    ensures var s' := After(limits, s, step);
            Line(s') == if InLine(s'.tasks[step.task]) then Line(s) else Line(s)[1..]
  {
    hide Expired;
    var t := step.task;
    assert ([t] + s.queue)[1..] == s.queue;
  }

  lemma NextMoves(limits: Limits, s: State, step: Step)
    requires Enabled(s, step) && AtLock(s.tasks[step.task]) && (s.running.Some? ==> s.queue == [])
    ensures var s' := After(limits, s, step);
            Line(s) != [] && Line(s') == if InLine(s'.tasks[step.task]) then Line(s) else Line(s)[1..]
  {
    hide Expired;
    var t := step.task;
    assert ([t] + s.queue)[1..] == s.queue;
    if s.running.None? { assert s.queue == [t] + s.queue[1..]; }
  }

  /** Who moves at the lock stands first in line and stays there or leaves. */
  lemma FirstMoves(limits: Limits, s: State, step: Step)
    requires Safe(limits, s) && Enabled(s, step) && InLine(s.tasks[step.task])
    ensures var s' := After(limits, s, step);
            Line(s) != [] && Line(s') == if InLine(s'.tasks[step.task]) then Line(s) else Line(s)[1..]
  {
    hide Books;
    hide After;
    var t := step.task;
    assert TaskOk(limits, s, t) && LineOk(s, t);
    if InsideLock(s.tasks[t]) {
      OwnerMoves(limits, s, step);
    } else {
      assert s.running.Some? ==> s.running == Some(t);
      NextMoves(limits, s, step);
    }
  }

  /** Everybody else joins the line at its end or has nothing to do with it. */
  lemma OthersArrive(limits: Limits, s: State, step: Step)
    requires Safe(limits, s) && Enabled(s, step) && !InLine(s.tasks[step.task])
    ensures var s' := After(limits, s, step);
            Line(s') == if InLine(s'.tasks[step.task]) then Line(s) + [step.task] else Line(s)
  {
    hide Books;
    hide Expired;
    OthersOutside(limits, s, step);
    assert LineOk(s, step.task);
  }

  lemma PlacesElsewhere(tasks: map<Task, Place>, line: seq<Task>, t: Task, place: Place)
    requires t !in line
    ensures Places(tasks[t := place], line) == Places(tasks, line)
  {}

  lemma PlacesSplit(tasks: map<Task, Place>, a: seq<Task>, b: seq<Task>)
    ensures Places(tasks, a + b) == Places(tasks, a) + Places(tasks, b)
  {}

  /** What a step makes of the line: who arrives stands at its end, who moves in it stands at its head. */
  function NextLine(ps: seq<Place>, before: Place, after: Place): seq<Place> {
    if InLine(before) then (if InLine(after) then [after] else []) + if ps == [] then [] else ps[1..]
    else ps + if InLine(after) then [after] else []
  }

  lemma LineMoves(limits: Limits, s: State, step: Step)
    requires Safe(limits, s) && Enabled(s, step)
    ensures var s', t := After(limits, s, step), step.task;
            t in s'.tasks && LineOf(s') == NextLine(LineOf(s), s.tasks[t], s'.tasks[t])
    ensures InLine(s.tasks[step.task]) ==> LineOf(s) != [] && LineOf(s)[0] == s.tasks[step.task]
  {
    hide Safe;
    hide After;
    hide Enabled;
    hide InLine;
    hide Line;
    var t, s' := step.task, After(limits, s, step);
    EnabledTask(s, step);
    var place := OneMoves(limits, s, step);
    if InLine(s.tasks[t]) {
      MoverIsFirst(limits, s, step);
      FirstMoves(limits, s, step);
      var rest := Line(s)[1..];
      PlacesElsewhere(s.tasks, rest, t, place);
      assert Line(s) == [t] + rest;
      PlacesSplit(s.tasks, [t], rest);
      PlacesSplit(s'.tasks, [t], rest);
    } else {
      OthersOutside(limits, s, step);
      OthersArrive(limits, s, step);
      PlacesElsewhere(s.tasks, Line(s), t, place);
      PlacesSplit(s'.tasks, Line(s), [t]);
    }
  }

  // ------------------------------------------------------------ sums along the line

  lemma {:induction false} GainSplit(a: seq<Place>, b: seq<Place>)
    ensures Gain(a + b) == Gain(a) + Gain(b) && Arrivals(a + b) == Arrivals(a) + Arrivals(b)
  {
    if b == [] {
      assert a + b == a;
    } else {
      assert (a + b)[..|a + b| - 1] == a + b[..|b| - 1];
      GainSplit(a, b[..|b| - 1]);
    }
  }

  lemma OneGain(place: Place)
    ensures Gain([place]) == Weight(place) && Arrivals([place]) == if Arrives(place) then 1 else 0
  {
    assert [place][..0] == [];
  }

  /** From `base` sockets on, with this line and then so many more to come, there are never more than `most`. */
  ghost predicate Room(base: int, line: seq<Place>, waiting: nat, most: nat) {
    && (forall k :: 0 <= k <= |line| ==> base + Gain(line[..k]) <= most)
    && base + Gain(line) + waiting <= most
  }

  lemma RoomAppends(base: int, line: seq<Place>, waiting: nat, most: nat, base': int, place: Place, waiting': nat)
    requires Room(base, line, waiting, most) && base' <= base && waiting' + Weight(place) <= waiting
    ensures Room(base', line + [place], waiting', most)
  {
    var longer := line + [place];
    GainSplit(line, [place]);
    OneGain(place);
    forall k | 0 <= k <= |longer| ensures base' + Gain(longer[..k]) <= most {
      if k <= |line| {
        assert longer[..k] == line[..k];
      } else {
        assert longer[..k] == longer;
      }
    }
  }

  lemma RoomShrinks(base: int, line: seq<Place>, waiting: nat, most: nat, base': int, waiting': nat)
    requires Room(base, line, waiting, most) && base' <= base && waiting' <= waiting
    ensures Room(base', line, waiting', most)
  {}

  lemma RoomServes(base: int, line: seq<Place>, waiting: nat, most: nat, base': int)
    requires Room(base, line, waiting, most) && line != [] && base' <= base + Weight(line[0])
    ensures Room(base', line[1..], waiting, most)
  {
    OneGain(line[0]);
    forall k | 0 <= k <= |line[1..]| ensures base' + Gain(line[1..][..k]) <= most {
      assert line[..k + 1] == [line[0]] + line[1..][..k];
      GainSplit([line[0]], line[1..][..k]);
    }
    assert line == [line[0]] + line[1..];
    GainSplit([line[0]], line[1..]);
  }

  lemma RoomChanges(base: int, line: seq<Place>, waiting: nat, most: nat, base': int, place: Place)
    requires Room(base, line, waiting, most) && line != []
    requires base' <= base && base' + Weight(place) <= base + Weight(line[0])
    ensures Room(base', [place] + line[1..], waiting, most)
  {
    var rest, changed := line[1..], [place] + line[1..];
    OneGain(line[0]);
    OneGain(place);
    forall k | 0 <= k <= |changed| ensures base' + Gain(changed[..k]) <= most {
      if k == 0 {
        assert changed[..0] == line[..0];
      } else {
        assert line[..k] == [line[0]] + rest[..k - 1] && changed[..k] == [place] + rest[..k - 1];
        GainSplit([line[0]], rest[..k - 1]);
        GainSplit([place], rest[..k - 1]);
      }
    }
    assert line == [line[0]] + rest;
    GainSplit([line[0]], rest);
    GainSplit([place], rest);
  }

  /** Fewer idle connections, or more checkouts, leave less over. */
  lemma {:induction false} RestShrinks(limits: Limits, idle: seq<Conn>, n: nat)
    requires idle != []
    ensures |Rest(limits, idle[..|idle| - 1], n)| <= |Rest(limits, idle, n)|
    ensures |Rest(limits, idle, n + 1)| <= |Rest(limits, idle, n)|
    decreases |idle|
  {
    var front := idle[..|idle| - 1];
    if n == 0 {
    } else if front != [] {
      RestShrinks(limits, front, n);
      RestShrinks(limits, front, n - 1);
    }
  }

  // ------------------------------------------------------------ nothing that follows overruns

  ghost function Sum(s: State): int { Count(s.tasks, Attached) + |Lingering(s)| }

  /** Once a `close` has swept: besides the connections it is closing there is room for all who may still
      come. */
  ghost predicate RoomAfter(limits: Limits, s: State) {
    s.idle == [] && (Lingering(s) == {} || Room(Sum(s), LineOf(s), Count(s.tasks, Applying), limits.maxSize))
  }

  /** The first `close` stands at place `p` of the line, and it will take over nothing or find room. */
  ghost predicate RoomAt(limits: Limits, s: State, p: nat) {
    var ps := LineOf(s);
    && p < |ps| && ps[p].Closing? && (forall i :: 0 <= i < p ==> !ps[i].Closing?) && Lingering(s) == {}
    && var left := |Rest(limits, s.idle, Arrivals(ps[..p]))|;
       || left == 0
       || Room(Count(s.tasks, Attached) + Gain(ps[..p]) + left, ps[p + 1..], Count(s.tasks, Applying), limits.maxSize)
  }

  ghost predicate Settling(limits: Limits, s: State) {
    Safe(limits, s) && s.closed && (RoomAfter(limits, s) || exists p :: RoomAt(limits, s, p))
  }

  lemma SettlingBounds(limits: Limits, s: State)
    requires Settling(limits, s)
    ensures Sockets(s) <= limits.maxSize
  {
    hide Count;
    hide Owners;
    hide Ordered;
    hide Lingering;
    if RoomAfter(limits, s) {
      assert LineOf(s)[..0] == [];
    }
  }

  lemma LingeringShrinks(limits: Limits, s: State, step: Step)
    requires Enabled(s, step) && (step.Sweep? ==> s.idle == [])
    ensures Lingering(After(limits, s, step)) <= Lingering(s)
  {
    hide Expired;
    var t, s' := step.task, After(limits, s, step);
    forall c | c in Lingering(s') ensures c in Lingering(s) {
      var u :| u in s'.tasks && s'.tasks[u].Sweeping? && c in s'.tasks[u].conns;
      if u == t { assert c in s.tasks[t].conns; } else { assert s.tasks[u] == s'.tasks[u]; }
    }
  }

  lemma SmallerSet<T>(a: set<T>, b: set<T>)
    requires a <= b
    ensures |a| <= |b| && (b == {} ==> a == {})
  {
    assert b == a + (b - a);
  }

  /** The counts that matter, before and after a step. */
  lemma Counted(limits: Limits, s: State, step: Step) returns (place: Place)
    requires Enabled(s, step)
    ensures var s' := After(limits, s, step);
            && s'.tasks == s.tasks[step.task := place] && place == s'.tasks[step.task]
            && Count(s'.tasks, Attached) == Count(s.tasks, Attached)
               - (if Plays(Attached, s.tasks[step.task]) then 1 else 0) + (if Plays(Attached, place) then 1 else 0)
            && Count(s'.tasks, Applying) == Count(s.tasks, Applying)
               - (if Plays(Applying, s.tasks[step.task]) then 1 else 0) + (if Plays(Applying, place) then 1 else 0)
  {
    hide After;
    hide Count;
    hide Plays;
    place := OneMoves(limits, s, step);
    Moved(s.tasks, step.task, place, Attached);
    Moved(s.tasks, step.task, place, Applying);
  }

  /** Served from the front, waited for at the end: the room there is only grows. */
  lemma RoomMoves(base: int, ps: seq<Place>, waiting: nat, most: nat, base': int, before: Place, after: Place,
                  waiting': nat)
    requires Room(base, ps, waiting, most)
    requires InLine(before) ==> ps != [] && ps[0] == before && waiting' <= waiting
    requires InLine(before) && InLine(after) ==> base' <= base && base' + Weight(after) <= base + Weight(before)
    requires InLine(before) && !InLine(after) ==> base' <= base + Weight(before)
    requires !InLine(before) ==> base' <= base && waiting' + (if InLine(after) then Weight(after) else 0) <= waiting
    ensures Room(base', NextLine(ps, before, after), waiting', most)
  {
    hide Room;
    if InLine(before) {
      if InLine(after) {
        RoomChanges(base, ps, waiting, most, base', after);
        RoomShrinks(base', [after] + ps[1..], waiting, most, base', waiting');
      } else {
        RoomServes(base, ps, waiting, most, base');
        RoomShrinks(base', ps[1..], waiting, most, base', waiting');
        assert [] + ps[1..] == ps[1..];
      }
    } else if InLine(after) {
      RoomAppends(base, ps, waiting, most, base', after, waiting');
    } else {
      RoomShrinks(base, ps, waiting, most, base', waiting');
      assert ps + [] == ps;
    }
  }

  lemma AfterStays(limits: Limits, s: State, step: Step)
    requires Safe(limits, s) && s.closed && RoomAfter(limits, s) && Enabled(s, step)
    ensures RoomAfter(limits, After(limits, s, step))
  {
    hide Safe;
    hide Count;
    hide Lingering;
    hide LineOf;
    hide NextLine;
    hide Room;
    hide Expired;
    var t, s' := step.task, After(limits, s, step);
    ClosedStaysEmpty(limits, s, step);
    LingeringShrinks(limits, s, step);
    SmallerSet(Lingering(s'), Lingering(s));
    if Lingering(s) != {} {
      var place := Counted(limits, s, step);
      LineMoves(limits, s, step);
      RoomMoves(Sum(s), LineOf(s), Count(s.tasks, Applying), limits.maxSize,
                Sum(s'), s.tasks[t], place, Count(s'.tasks, Applying));
    }
  }

  lemma LingeringAfterSweep(limits: Limits, s: State, t: Task)
    requires Enabled(s, Sweep(t))
    ensures Lingering(After(limits, s, Sweep(t))) == Lingering(s) + set c | c in s.idle
  {
    var s' := After(limits, s, Sweep(t));
    assert s'.tasks[t] == Sweeping(s.idle);
    forall d ensures d in Lingering(s') <==> d in Lingering(s) || d in s.idle {
      if d in Lingering(s') {
        var u :| u in s'.tasks && s'.tasks[u].Sweeping? && d in s'.tasks[u].conns;
        if u != t { assert s.tasks[u] == s'.tasks[u]; }
      }
      if d in Lingering(s) {
        var u :| u in s.tasks && s.tasks[u].Sweeping? && d in s.tasks[u].conns;
        assert u != t && s.tasks[u] == s'.tasks[u];
      }
      if d in s.idle { assert d in s'.tasks[t].conns; }
    }
  }

  lemma {:induction false} DistinctSize(cs: seq<Conn>)
    requires DistinctIds(cs)
    ensures |set c | c in cs| == |cs|
  {
    if cs != [] {
      var front, last := cs[..|cs| - 1], cs[|cs| - 1];
      DistinctSize(front);
      assert cs == front + [last] && last !in front;
      assert (set c | c in cs) == (set c | c in front) + {last};
    }
  }

  lemma SweepSettles(limits: Limits, s: State, step: Step)
    requires Safe(limits, s) && s.closed && RoomAt(limits, s, 0) && Enabled(s, step) && InLine(s.tasks[step.task])
    ensures RoomAfter(limits, After(limits, s, step))
  {
    hide Count;
    hide LineOf;
    hide Room;
    hide Gain;
    hide Arrivals;
    hide Books;
    hide Ordered;
    var t, s', ps := step.task, After(limits, s, step), LineOf(s);
    var place := Counted(limits, s, step);
    LineMoves(limits, s, step);
    assert step == Sweep(t);
    LingeringAfterSweep(limits, s, t);
    DistinctSize(s.idle);
    hide Lingering;
    assert ps[..0] == [] && Gain([]) == 0 && Arrivals([]) == 0 by { NothingGained(); }
    if s.idle == [] {
      assert Lingering(s') == {};
    } else {
      assert LineOf(s') == ps[1..] by { assert [] + ps[1..] == ps[1..]; }
      RoomShrinks(Count(s.tasks, Attached) + |s.idle|, ps[1..], Count(s.tasks, Applying), limits.maxSize,
                  Sum(s'), Count(s'.tasks, Applying));
    }
  }

  lemma NothingGained()
    ensures Gain([]) == 0 && Arrivals([]) == 0
  {}

  /** A move ahead of the `close`: what it leaves over and what it adds make no more than before. */
  lemma AheadMoves(limits: Limits, s: State, step: Step, rest: seq<Place>)
    requires Safe(limits, s) && s.closed && Enabled(s, step)
    requires InLine(s.tasks[step.task]) && !s.tasks[step.task].Closing?
    ensures var s', before := After(limits, s, step), s.tasks[step.task];
            step.task in s'.tasks && !s'.tasks[step.task].Closing?
            && var after := s'.tasks[step.task];
               var ahead, ahead' := [before] + rest, (if InLine(after) then [after] else []) + rest;
               var left, left' := |Rest(limits, s.idle, Arrivals(ahead))|, |Rest(limits, s'.idle, Arrivals(ahead'))|;
               left' <= left && Count(s'.tasks, Attached) + Gain(ahead') + left'
                                <= Count(s.tasks, Attached) + Gain(ahead) + left
  {
    hide Safe;
    hide Count;
    hide Gain;
    hide Arrivals;
    hide Rest;
    var s', before := After(limits, s, step), s.tasks[step.task];
    var after := Counted(limits, s, step);
    var n := Arrivals(rest);
    OneGain(before);
    OneGain(after);
    GainSplit([before], rest);
    GainSplit([after], rest);
    assert [] + rest == rest;
    if step.Check? {
      hide After;
      CheckLeaves(limits, s, step, n);
    }
  }

  lemma CheckLeaves(limits: Limits, s: State, step: Step, n: nat)
    requires Enabled(s, step) && step.Check?
    ensures var s' := After(limits, s, step);
            |Rest(limits, s'.idle, if s'.tasks[step.task].Reaping? then n + 1 else n)| <= |Rest(limits, s.idle, n + 1)|
    ensures var place := After(limits, s, step).tasks[step.task];
            place.Reaping? || place.Holding? || place.Connecting?
  {
    if s.idle != [] {
      RestShrinks(limits, s.idle, n + 1);
      RestShrinks(limits, s.idle, n);
    }
  }

  lemma AtStays(limits: Limits, s: State, step: Step, p: nat)
    requires Safe(limits, s) && s.closed && RoomAt(limits, s, p) && Enabled(s, step)
    ensures var s' := After(limits, s, step); RoomAfter(limits, s') || exists q :: RoomAt(limits, s', q)
  {
    hide RoomAt;
    hide RoomAfter;
    hide Safe;
    hide After;
    EnabledTask(s, step);
    if InLine(s.tasks[step.task]) {
      if p == 0 { SweepSettles(limits, s, step); } else { ServedAhead(limits, s, step, p); }
    } else {
      JoinedBehind(limits, s, step, p);
    }
  }

  lemma JoinedBehind(limits: Limits, s: State, step: Step, p: nat)
    requires Safe(limits, s) && s.closed && RoomAt(limits, s, p) && Enabled(s, step) && !InLine(s.tasks[step.task])
    ensures RoomAt(limits, After(limits, s, step), p)
  {
    hide Safe;
    hide Count;
    hide Lingering;
    hide LineOf;
    hide Room;
    hide Gain;
    hide Arrivals;
    hide Rest;
    var t, s', ps := step.task, After(limits, s, step), LineOf(s);
    LingeringShrinks(limits, s, step);
    SmallerSet(Lingering(s'), Lingering(s));
    var place := Counted(limits, s, step);
    LineMoves(limits, s, step);
    var ps', behind := LineOf(s'), ps[p + 1..];
    assert ps'[..p] == ps[..p] && ps'[p] == ps[p] && ps'[p + 1..] == NextLine(behind, s.tasks[t], place);
    var left := |Rest(limits, s.idle, Arrivals(ps[..p]))|;
    if left != 0 {
      RoomMoves(Count(s.tasks, Attached) + Gain(ps[..p]) + left, behind, Count(s.tasks, Applying), limits.maxSize,
                Count(s'.tasks, Attached) + Gain(ps[..p]) + left, s.tasks[t], place, Count(s'.tasks, Applying));
    }
  }

  lemma ServedAhead(limits: Limits, s: State, step: Step, p: nat)
    requires Safe(limits, s) && s.closed && RoomAt(limits, s, p) && p > 0
    requires Enabled(s, step) && InLine(s.tasks[step.task])
    ensures exists q :: RoomAt(limits, After(limits, s, step), q)
  {
    hide Safe;
    hide Count;
    hide Lingering;
    hide LineOf;
    hide Room;
    hide Gain;
    hide Arrivals;
    hide Rest;
    hide After;
    hide Enabled;
    var t, s', ps := step.task, After(limits, s, step), LineOf(s);
    EnabledTask(s, step);
    LineMoves(limits, s, step);
    assert ps[0] == s.tasks[t];
    AheadNoSweep(s, step);
    NeverBack(limits, s, step);
    LingeringShrinks(limits, s, step);
    SmallerSet(Lingering(s'), Lingering(s));
    var place := Counted(limits, s, step);
    var ps', rest := LineOf(s'), ps[1..p];
    assert ps[..p] == [s.tasks[t]] + rest;
    AheadMoves(limits, s, step, rest);
    var q := if InLine(place) then p else p - 1;
    assert ps'[..q] == (if InLine(place) then [place] else []) + rest;
    assert ps'[q] == ps[p] && ps'[q + 1..] == ps[p + 1..];
    var left, left' := |Rest(limits, s.idle, Arrivals(ps[..p]))|, |Rest(limits, s'.idle, Arrivals(ps'[..q]))|;
    if left' != 0 {
      RoomShrinks(Count(s.tasks, Attached) + Gain(ps[..p]) + left, ps[p + 1..], Count(s.tasks, Applying),
                  limits.maxSize, Count(s'.tasks, Attached) + Gain(ps'[..q]) + left', Count(s'.tasks, Applying));
    }
    assert RoomAt(limits, s', q);
  }

  lemma NeverBack(limits: Limits, s: State, step: Step)
    requires Enabled(s, step) && InLine(s.tasks[step.task])
    ensures step.task in After(limits, s, step).tasks && !After(limits, s, step).tasks[step.task].Waiting?
  {
    hide Expired;
  }

  lemma AheadNoSweep(s: State, step: Step)
    requires Enabled(s, step) && !s.tasks[step.task].Closing?
    ensures !step.Sweep?
  {}

  lemma {:induction false} SettlingStays(limits: Limits, trace: seq<State>, steps: seq<Step>, i: nat)
    requires Steps(limits, trace, steps) && i < |trace| && Settling(limits, trace[0])
    ensures Settling(limits, trace[i])
  {
    hide Safe;
    hide Enabled;
    hide After;
    hide RoomAt;
    hide RoomAfter;
    if i > 0 {
      SettlingStays(limits, trace, steps, i - 1);
      var s, step := trace[i - 1], steps[i - 1];
      SafeKept(limits, s, step);
      StaysClosed(limits, s, step);
      if RoomAfter(limits, s) {
        AfterStays(limits, s, step);
      } else {
        var p :| RoomAt(limits, s, p);
        AtStays(limits, s, step, p);
      }
    }
  }

  lemma StaysClosed(limits: Limits, s: State, step: Step)
    requires s.closed && Enabled(s, step)
    ensures After(limits, s, step).closed
  {
    hide Expired;
  }

  /** Everything that can follow stays within `max_size`. */
  ghost predicate NeverOverruns(limits: Limits, c: State) {
    forall trace, steps {:trigger Steps(limits, trace, steps)} ::
      Steps(limits, trace, steps) && trace[0] == c ==> Sockets(trace[|steps|]) <= limits.maxSize
  }

  lemma SettlingSuffices(limits: Limits, c: State)
    requires Settling(limits, c)
    ensures NeverOverruns(limits, c)
  {
    hide Settling;
    hide Sockets;
    forall trace, steps | Steps(limits, trace, steps) && trace[0] == c
      ensures Sockets(trace[|steps|]) <= limits.maxSize
    {
      SettlingStays(limits, trace, steps, |steps|);
      SettlingBounds(limits, trace[|steps|]);
    }
  }

  // ------------------------------------------------------------ and what is allowed does happen

  lemma Chain(limits: Limits, s: State, step: Step, trace: seq<State>, steps: seq<Step>)
    requires Enabled(s, step) && Steps(limits, trace, steps) && trace[0] == After(limits, s, step)
    ensures Steps(limits, [s] + trace, [step] + steps)
    ensures ([s] + trace)[|[step] + steps|] == trace[|steps|]
  {
    hide Enabled;
    hide After;
    var all, done := [s] + trace, [step] + steps;
    forall i | 0 <= i < |done| ensures Enabled(all[i], done[i]) && all[i + 1] == After(limits, all[i], done[i]) {
      if i > 0 { assert all[i] == trace[i - 1] && done[i] == steps[i - 1]; }
    }
  }

  lemma Join(limits: Limits, trace: seq<State>, steps: seq<Step>, trace': seq<State>, steps': seq<Step>)
    requires Steps(limits, trace, steps) && Steps(limits, trace', steps') && trace'[0] == trace[|steps|]
    ensures Steps(limits, trace + trace'[1..], steps + steps')
    ensures (trace + trace'[1..])[|steps + steps'|] == trace'[|steps'|]
  {
    hide Enabled;
    hide After;
    var all, done := trace + trace'[1..], steps + steps';
    forall i | 0 <= i < |done| ensures Enabled(all[i], done[i]) && all[i + 1] == After(limits, all[i], done[i]) {
      if i < |steps| {
        assert all[i] == trace[i] && all[i + 1] == trace[i + 1] && done[i] == steps[i];
      } else {
        assert all[i] == trace'[i - |steps|] && done[i] == steps'[i - |steps|];
      }
    }
  }

  /** How a task at the lock goes on when nothing is dead or stale. */
  function TurnOf(t: Task, place: Place): Step {
    match place
    case Permitted => Enter(t)
    case Checking => Check(t, false, false)
    case Reaping(_) => Reaped(t)
    case Failing => Recover(t)
    case Returning(_, _) => PutBack(t, false)
    case Dropping(_) => Dropped(t)
    case _ => Sweep(t)
  }

  function Turns(place: Place): nat {
    if place.Permitted? || place.Returning? then 3 else if place.Reaping? then 2 else 1
  }

  lemma HeadEnabled(limits: Limits, s: State)
    requires Safe(limits, s) && LineOf(s) != []
    ensures Line(s) != []
    ensures var t := Line(s)[0];
            t in s.tasks && LineOf(s)[0] == s.tasks[t] && InLine(s.tasks[t]) && Enabled(s, TurnOf(t, s.tasks[t]))
            && LineOk(s, t)
  {
    hide Books;
    var t := Line(s)[0];
    if s.lock.Some? {
      assert TaskOk(limits, s, t) && LineOk(s, t);
      if s.running.Some? { assert LineOk(s, s.running.value) && TaskOk(limits, s, s.running.value); }
    } else {
      assert LineOk(s, t);
    }
  }

  function Outs(place: Place): nat { if Arrives(place) then 1 else 0 }

  /** `n` further checkouts leave the same. */
  predicate RestsAlike(limits: Limits, idle: seq<Conn>, idle': seq<Conn>, before: nat, after: nat, n: nat) {
    Rest(limits, idle', after + n) == Rest(limits, idle, before + n)
  }

  /** What one turn of the first in line changes: it has left, or stands there still; together with what it
      will still add and take out, sockets and idle connections are as before. */
  ghost predicate Turned(limits: Limits, s: State, s': State) {
    var ps, ps' := LineOf(s), LineOf(s');
    && ps != [] && Safe(limits, s') && s'.closed && Lingering(s') == Lingering(s)
    && Count(s'.tasks, Applying) == Count(s.tasks, Applying)
    && (Stays(limits, s, s') || Leaves(limits, s, s'))
  }

  ghost predicate Stays(limits: Limits, s: State, s': State)
    requires LineOf(s) != []
  {
    var ps, ps' := LineOf(s), LineOf(s');
    && Line(s') == Line(s) && ps' != [] && ps'[1..] == ps[1..] && !ps'[0].Closing?
    && Count(s'.tasks, Attached) + Weight(ps'[0]) == Count(s.tasks, Attached) + Weight(ps[0])
    && (forall n: nat :: RestsAlike(limits, s.idle, s'.idle, Outs(ps[0]), Outs(ps'[0]), n))
    && (|s'.idle| < |s.idle| || (s'.idle == s.idle && Turns(ps'[0]) < Turns(ps[0])))
    && Outs(ps'[0]) == Outs(ps[0])
  }

  ghost predicate Leaves(limits: Limits, s: State, s': State)
    requires LineOf(s) != []
  {
    var ps, ps' := LineOf(s), LineOf(s');
    && Line(s') == Line(s)[1..] && ps' == ps[1..] && s'.running.None?
    && Count(s'.tasks, Attached) == Count(s.tasks, Attached) + Weight(ps[0])
    && forall n: nat :: RestsAlike(limits, s.idle, s'.idle, Outs(ps[0]), 0, n)
  }

  lemma HeadTurns(limits: Limits, s: State)
    requires Safe(limits, s) && s.closed && LineOf(s) != [] && (s.idle == [] || !LineOf(s)[0].Closing?)
    ensures var t := Line(s)[0];
            t in s.tasks && Enabled(s, TurnOf(t, s.tasks[t]))
            && Turned(limits, s, After(limits, s, TurnOf(t, s.tasks[t])))
  {
    hide Expired;
    hide Safe;
    hide Count;
    hide Lingering;
    hide Weight;
    hide RestsAlike;
    HeadEnabled(limits, s);
    hide Line;
    hide LineOf;
    hide LineOk;
    var t := Line(s)[0];
    var step := TurnOf(t, s.tasks[t]);
    var s' := After(limits, s, step);
    TurnLingers(limits, s, t);
    TurnWeighs(limits, s, t);
    TurnShrinks(limits, s, t);
    forall n: nat ensures RestsAlike(limits, s.idle, s'.idle, Outs(s.tasks[t]), Outs(s'.tasks[t]), n) {
      TurnRests(limits, s, t, n);
    }
    hide After;
    hide Enabled;
    hide TurnOf;
    SafeKept(limits, s, step);
    LineMoves(limits, s, step);
    FirstMoves(limits, s, step);
    var place := Counted(limits, s, step);
    assert ([place] + LineOf(s)[1..])[1..] == LineOf(s)[1..];
    assert [] + LineOf(s)[1..] == LineOf(s)[1..];
  }

  lemma TurnLingers(limits: Limits, s: State, t: Task)
    requires t in s.tasks && Enabled(s, TurnOf(t, s.tasks[t])) && InLine(s.tasks[t])
    requires s.idle == [] || !s.tasks[t].Closing?
    ensures Lingering(After(limits, s, TurnOf(t, s.tasks[t]))) == Lingering(s)
  {
    if s.tasks[t].Closing? {
      LingeringAfterSweep(limits, s, t);
    } else {
      LingeringStays(limits, s, TurnOf(t, s.tasks[t]));
    }
  }

  lemma LingeringStays(limits: Limits, s: State, step: Step)
    requires Enabled(s, step) && !step.Sweep? && !step.CloseOne?
    ensures Lingering(After(limits, s, step)) == Lingering(s)
  {
    hide Expired;
    var t, s' := step.task, After(limits, s, step);
    forall c ensures c in Lingering(s') <==> c in Lingering(s) {
      if c in Lingering(s') {
        var u :| u in s'.tasks && s'.tasks[u].Sweeping? && c in s'.tasks[u].conns;
        assert u != t && s.tasks[u] == s'.tasks[u];
      }
      if c in Lingering(s) {
        var u :| u in s.tasks && s.tasks[u].Sweeping? && c in s.tasks[u].conns;
        assert u != t && s.tasks[u] == s'.tasks[u];
      }
    }
  }

  lemma TurnWeighs(limits: Limits, s: State, t: Task)
    requires t in s.tasks && Enabled(s, TurnOf(t, s.tasks[t])) && InLine(s.tasks[t]) && s.closed
    ensures var before, s' := s.tasks[t], After(limits, s, TurnOf(t, s.tasks[t]));
            t in s'.tasks && !s'.tasks[t].Waiting? && !s'.tasks[t].Closing? && s'.closed
            && var after := s'.tasks[t];
               var gained := (if Plays(Attached, after) then 1 else 0) - (if Plays(Attached, before) then 1 else 0);
               if InLine(after) then gained + Weight(after) == Weight(before) && Outs(after) == Outs(before)
               else gained == Weight(before) && Outs(after) == 0
  {
    hide Expired;
  }

  lemma TurnShrinks(limits: Limits, s: State, t: Task)
    requires t in s.tasks && Enabled(s, TurnOf(t, s.tasks[t])) && InLine(s.tasks[t]) && s.closed && LineOk(s, t)
    ensures var before, s' := s.tasks[t], After(limits, s, TurnOf(t, s.tasks[t]));
            t in s'.tasks
            && var after := s'.tasks[t];
               if InLine(after) then |s'.idle| < |s.idle| || (s'.idle == s.idle && Turns(after) < Turns(before))
               else s'.running.None?
  {
    hide Expired;
  }

  lemma TurnRests(limits: Limits, s: State, t: Task, n: nat)
    requires t in s.tasks && Enabled(s, TurnOf(t, s.tasks[t])) && InLine(s.tasks[t]) && s.closed
    requires s.idle == [] || !s.tasks[t].Closing?
    ensures var s' := After(limits, s, TurnOf(t, s.tasks[t]));
            t in s'.tasks
            && RestsAlike(limits, s.idle, s'.idle, Outs(s.tasks[t]), Outs(s'.tasks[t]), n)
  {
    hide Rest;
    hide Expired;
    if s.tasks[t].Checking? { CheckRests(limits, s, t, n); }
  }

  lemma CheckRests(limits: Limits, s: State, t: Task, n: nat)
    requires t in s.tasks && s.tasks[t].Checking? && Enabled(s, Check(t, false, false))
    ensures var s' := After(limits, s, Check(t, false, false));
            t in s'.tasks && RestsAlike(limits, s.idle, s'.idle, 1, Outs(s'.tasks[t]), n)
  {}

  /** The first `k` at the lock have gone on; nothing is lost or won but what they weigh. */
  ghost predicate Served(limits: Limits, s: State, s': State, k: nat)
    requires k <= |LineOf(s)|
  {
    hide After;
    var ahead := LineOf(s)[..k];
    && Safe(limits, s') && s'.closed && Lingering(s') == Lingering(s)
    && Count(s'.tasks, Applying) == Count(s.tasks, Applying)
    && k <= |Line(s)| && Line(s') == Line(s)[k..] && LineOf(s') == LineOf(s)[k..]
    && Count(s'.tasks, Attached) == Count(s.tasks, Attached) + Gain(ahead)
    && s'.idle == Rest(limits, s.idle, Arrivals(ahead))
    && (if k > 0 then s'.running.None? else s' == s)
  }

  /** The tasks at the lock can be served one after the other. */
  lemma {:induction false} ServeFirst(limits: Limits, s: State, k: nat) returns (trace: seq<State>, steps: seq<Step>)
    requires Safe(limits, s) && s.closed && k <= |LineOf(s)|
    requires s.idle == [] || forall i :: 0 <= i < k ==> !LineOf(s)[i].Closing?
    ensures Steps(limits, trace, steps) && trace[0] == s && Served(limits, s, trace[|steps|], k)
    decreases k, |s.idle|, if k > 0 then Turns(LineOf(s)[0]) else 0
  {
    hide Safe;
    hide Count;
    hide Lingering;
    hide After;
    hide Enabled;
    hide Gain;
    hide Arrivals;
    hide Rest;
    hide Turned;
    if k == 0 {
      trace, steps := [s], [];
      NothingServed(limits, s);
    } else {
      HeadEnabled(limits, s);
      HeadTurns(limits, s);
      var t := Line(s)[0];
      var step := TurnOf(t, s.tasks[t]);
      var s' := After(limits, s, step);
      var j := TurnsLeft(limits, s, s', k);
      trace, steps := ServeFirst(limits, s', j);
      ServedTogether(limits, s, s', trace[|steps|], k, j);
      Chain(limits, s, step, trace, steps);
      trace, steps := [s] + trace, [step] + steps;
    }
  }

  lemma NothingServed(limits: Limits, s: State)
    requires Safe(limits, s) && s.closed
    ensures Served(limits, s, s, 0)
  {
    hide Safe;
    hide Count;
    hide Lingering;
    assert LineOf(s)[..0] == [] && LineOf(s)[0..] == LineOf(s) && Line(s)[0..] == Line(s);
  }

  /** How many of the first `k` are still to be served. */
  lemma TurnsLeft(limits: Limits, s: State, s': State, k: nat) returns (j: nat)
    requires 0 < k <= |LineOf(s)| && Turned(limits, s, s')
    requires s.idle == [] || forall i :: 0 <= i < k ==> !LineOf(s)[i].Closing?
    ensures j == (if Stays(limits, s, s') then k else k - 1) && j <= |LineOf(s')|
    ensures Safe(limits, s') && s'.closed && (Leaves(limits, s, s') ==> s'.running.None?)
    ensures s'.idle == [] || forall i :: 0 <= i < j ==> !LineOf(s')[i].Closing?
    ensures j < k || |s'.idle| < |s.idle| || (s'.idle == s.idle && Turns(LineOf(s')[0]) < Turns(LineOf(s)[0]))
  {
    hide Safe;
    hide Count;
    hide Lingering;
    hide RestsAlike;
    hide Places;
    j := if Stays(limits, s, s') then k else k - 1;
    var ps, ps' := LineOf(s), LineOf(s');
    if Stays(limits, s, s') {
      assert ps' == [ps'[0]] + ps'[1..] && ps == [ps[0]] + ps[1..];
    }
    if s.idle == [] { NoneTurnedUp(limits, s, s'); }
  }

  lemma NoneTurnedUp(limits: Limits, s: State, s': State)
    requires Turned(limits, s, s') && s.idle == []
    ensures s'.idle == []
  {
    if Stays(limits, s, s') {
    } else {
      var n: nat := 0;
      assert RestsAlike(limits, s.idle, s'.idle, Outs(LineOf(s)[0]), 0, n);
    }
  }

  lemma ServedTogether(limits: Limits, s: State, s': State, t: State, k: nat, j: nat)
    requires 0 < k <= |LineOf(s)| && Turned(limits, s, s') && j <= |LineOf(s')|
    requires j == (if Stays(limits, s, s') then k else k - 1) && Served(limits, s', t, j)
    requires Leaves(limits, s, s') ==> s'.running.None?
    ensures Served(limits, s, t, k)
  {
    hide Safe;
    hide Count;
    hide Lingering;
    hide Gain;
    hide Arrivals;
    hide Rest;
    hide Weight;
    hide Places;
    var ps, ps' := LineOf(s), LineOf(s');
    var rest := ps[1..k];
    assert ps[..k] == [ps[0]] + rest;
    OneGain(ps[0]);
    GainSplit([ps[0]], rest);
    if Stays(limits, s, s') {
      assert ps' == [ps'[0]] + ps[1..];
      assert ps'[..k] == [ps'[0]] + rest;
      OneGain(ps'[0]);
      GainSplit([ps'[0]], rest);
      assert RestsAlike(limits, s.idle, s'.idle, Outs(ps[0]), Outs(ps'[0]), Arrivals(rest));
      assert ps'[k..] == ps'[1..][k - 1..] && ps[k..] == ps[1..][k - 1..];
    } else {
      assert ps'[..j] == rest;
      assert RestsAlike(limits, s.idle, s'.idle, Outs(ps[0]), 0, Arrivals(rest));
      assert Line(s)[1..][j..] == Line(s)[k..] && ps[1..][j..] == ps[k..];
    }
  }

  /** One who waits for a permit is let in and connects. */
  lemma Admits(limits: Limits, s: State, t: Task) returns (trace: seq<State>, steps: seq<Step>)
    requires Safe(limits, s) && s.closed && s.idle == [] && LineOf(s) == []
    requires t in s.tasks && s.tasks[t].Waiting? && s.permits > 0
    ensures Steps(limits, trace, steps) && trace[0] == s
    ensures var s' := trace[|steps|];
            && Safe(limits, s') && s'.closed && s'.idle == [] && LineOf(s') == [] && Lingering(s') == Lingering(s)
            && Count(s'.tasks, Applying) == Count(s.tasks, Applying) - 1
            && Count(s'.tasks, Attached) == Count(s.tasks, Attached) + 1
  {
    hide Safe;
    hide Count;
    hide Lingering;
    hide Gain;
    hide Arrivals;
    assert Enabled(s, TakePermit(t));
    var mid := After(limits, s, TakePermit(t));
    SafeKept(limits, s, TakePermit(t));
    LineMoves(limits, s, TakePermit(t));
    var place := Counted(limits, s, TakePermit(t));
    LingeringStays(limits, s, TakePermit(t));
    assert place == Permitted && LineOf(mid) == [Permitted];
    hide After;
    hide Enabled;
    trace, steps := ServeFirst(limits, mid, 1);
    OneGain(Permitted);
    assert LineOf(mid)[..1] == [Permitted];
    Chain(limits, s, TakePermit(t), trace, steps);
    trace, steps := [s] + trace, [TakePermit(t)] + steps;
  }

  /** Nobody waits any more, or there are no permits left. */
  lemma Full(limits: Limits, s: State)
    requires Safe(limits, s) && LineOf(s) == []
    requires s.permits <= 0 || forall t :: t in s.tasks ==> !s.tasks[t].Waiting?
    ensures var all := Count(s.tasks, Attached) + Count(s.tasks, Applying);
            Count(s.tasks, Attached) == if all <= limits.maxSize then all else limits.maxSize
  {
    forall t | t in s.tasks ensures !InLine(s.tasks[t]) { assert TaskOk(limits, s, t) && LineOk(s, t); }
    assert Players(s.tasks, HasPermit) == Players(s.tasks, Attached);
    if s.permits > 0 { assert Players(s.tasks, Applying) == {}; }
  }

  /** With nobody left at the lock of a swept pool, those who wait for a permit connect, as many as may. */
  lemma {:induction false} FillUp(limits: Limits, s: State) returns (trace: seq<State>, steps: seq<Step>)
    requires Safe(limits, s) && s.closed && s.idle == [] && LineOf(s) == []
    ensures Steps(limits, trace, steps) && trace[0] == s
    ensures var all, s' := Count(s.tasks, Attached) + Count(s.tasks, Applying), trace[|steps|];
            Count(s'.tasks, Attached) == (if all <= limits.maxSize then all else limits.maxSize)
            && Lingering(s') == Lingering(s)
    decreases Count(s.tasks, Applying)
  {
    hide Safe;
    hide Count;
    hide Lingering;
    hide LineOf;
    hide After;
    hide Enabled;
    if t :| t in s.tasks && s.tasks[t].Waiting? && s.permits > 0 {
      var trace1, steps1 := Admits(limits, s, t);
      var trace2, steps2 := FillUp(limits, trace1[|steps1|]);
      Join(limits, trace1, steps1, trace2, steps2);
      trace, steps := trace1 + trace2[1..], steps1 + steps2;
    } else {
      trace, steps := [s], [];
      Full(limits, s);
    }
  }

  // ------------------------------------------------------------ the exact conditions

  /** What a `close` that is about to sweep needs: connections to take over are none, or there is room for them
      beside whatever the tasks behind it in line, and those still without a permit, will do. */
  ghost predicate RoomToSweep(limits: Limits, s: State) {
    s.idle == [] || Room(Count(s.tasks, Attached) + |s.idle|, if LineOf(s) == [] then [] else LineOf(s)[1..],
                         Count(s.tasks, Applying), limits.maxSize)
  }

  lemma Swept(limits: Limits, s: State, t: Task)
    requires Safe(limits, s) && Enabled(s, Sweep(t)) && Lingering(s) == {}
    ensures var c := After(limits, s, Sweep(t));
            && Safe(limits, c) && c.closed && c.idle == [] && |Lingering(c)| == |s.idle|
            && LineOf(s) != [] && LineOf(c) == LineOf(s)[1..] && Count(c.tasks, Attached) == Count(s.tasks, Attached)
            && Count(c.tasks, Applying) == Count(s.tasks, Applying)
            && (s.idle == [] ==> Lingering(c) == {})
  {
    hide Count;
    hide LineOf;
    hide Books;
    hide Ordered;
    SweepsClosed(limits, s, Sweep(t));
    hide TaskOk;
    SafeKept(limits, s, Sweep(t));
    var place := Counted(limits, s, Sweep(t));
    LineMoves(limits, s, Sweep(t));
    LingeringAfterSweep(limits, s, t);
    DistinctSize(s.idle);
    hide Lingering;
    assert [] + LineOf(s)[1..] == LineOf(s)[1..];
    assert Lingering(After(limits, s, Sweep(t))) == set c | c in s.idle;
  }

  /** The first `close` that sweeps a pool drives it, or can drive it, beyond `max_size` exactly if there are
      idle connections and these, with all that have a socket, do not leave room for the tasks that are served
      after it, in the order of the line, and then for those still without a permit. */
  lemma ClosingBounded(limits: Limits, trace: seq<State>, steps: seq<Step>, t: Task)
    requires Run(limits, trace, steps) && Enabled(trace[|steps|], Sweep(t)) && Lingering(trace[|steps|]) == {}
    ensures NeverOverruns(limits, After(limits, trace[|steps|], Sweep(t))) <==> RoomToSweep(limits, trace[|steps|])
  {
    RunSafe(limits, trace, steps, |steps|);
    hide Run;
    hide Safe;
    hide Enabled;
    hide After;
    hide Lingering;
    hide Count;
    hide LineOf;
    hide Room;
    var s := trace[|steps|];
    var c := After(limits, s, Sweep(t));
    Swept(limits, s, t);
    if RoomToSweep(limits, s) {
      SettlingSuffices(limits, c);
    } else {
      NoRoom(limits, c);
    }
  }

  /** Where there is no room, the tasks can go on until the bound is exceeded. */
  lemma NoRoom(limits: Limits, c: State)
    requires Safe(limits, c) && c.closed && c.idle == [] && Lingering(c) != {}
    requires !Room(Sum(c), LineOf(c), Count(c.tasks, Applying), limits.maxSize)
    ensures !NeverOverruns(limits, c)
  {
    hide Safe;
    hide Enabled;
    hide After;
    hide Lingering;
    hide Count;
    hide LineOf;
    hide Gain;
    hide Rest;
    hide Arrivals;
    var line := LineOf(c);
    assert line[..|line|] == line && line[|line|..] == [];
    if k :| 0 <= k <= |line| && Sum(c) + Gain(line[..k]) > limits.maxSize {
      var trace, steps := ServeFirst(limits, c, k);
      assert Sockets(trace[|steps|]) > limits.maxSize;
    } else {
      var trace1, steps1 := ServeFirst(limits, c, |line|);
      NothingIdle(limits, Arrivals(line[..|line|]));
      var trace2, steps2 := FillUp(limits, trace1[|steps1|]);
      Join(limits, trace1, steps1, trace2, steps2);
      SomeLinger(c);
      assert Sockets((trace1 + trace2[1..])[|steps1 + steps2|]) > limits.maxSize;
    }
  }

  lemma NothingIdle(limits: Limits, n: nat)
    ensures Rest(limits, [], n) == []
  {}

  lemma SomeLinger(c: State)
    requires Lingering(c) != {}
    ensures |Lingering(c)| >= 1
  {}

  /** What a caller of `close` can read off the pool: the tasks now at the lock, served before the `close`, will
      leave no idle connection over, or there is room for those they leave, for all that then have a socket, and
      for all who wait for a permit. */
  ghost predicate RoomToClose(limits: Limits, s: State) {
    var left := |Rest(limits, s.idle, Arrivals(LineOf(s)))|;
    || left == 0
    || Count(s.tasks, Attached) + Gain(LineOf(s)) + left + Count(s.tasks, Applying) <= limits.maxSize
  }

  lemma NoneCloses(limits: Limits, s: State)
    requires Safe(limits, s) && !s.closed
    ensures Lingering(s) == {} && forall i :: 0 <= i < |LineOf(s)| ==> !LineOf(s)[i].Closing?
  {
    hide Books;
    hide Ordered;
    forall t | t in s.tasks ensures !s.tasks[t].Sweeping? && !s.tasks[t].Closing? { assert TaskOk(limits, s, t); }
  }

  lemma Closes(limits: Limits, s: State, t: Task)
    requires Safe(limits, s) && !s.closed && Enabled(s, StartClose(t))
    ensures var c := After(limits, s, StartClose(t));
            && Safe(limits, c) && c.closed && c.idle == s.idle && LineOf(c) == LineOf(s) + [Closing]
            && Line(c) == Line(s) + [t] && |Line(s)| == |LineOf(s)| && Lingering(c) == {}
            && Count(c.tasks, Attached) == Count(s.tasks, Attached)
            && Count(c.tasks, Applying) == Count(s.tasks, Applying)
  {
    hide Safe;
    hide Count;
    NoneCloses(limits, s);
    hide Lingering;
    SafeKept(limits, s, StartClose(t));
    LineMoves(limits, s, StartClose(t));
    OthersArrive(limits, s, StartClose(t));
    LingeringStays(limits, s, StartClose(t));
    var place := Counted(limits, s, StartClose(t));
  }

  lemma OverrunsEarlier(limits: Limits, trace: seq<State>, steps: seq<Step>)
    requires Steps(limits, trace, steps) && !NeverOverruns(limits, trace[|steps|])
    ensures !NeverOverruns(limits, trace[0])
  {
    hide Enabled;
    hide After;
    hide Sockets;
    var trace', steps' :| Steps(limits, trace', steps') && trace'[0] == trace[|steps|]
      && Sockets(trace'[|steps'|]) > limits.maxSize;
    Join(limits, trace, steps, trace', steps');
  }

  /** Calling `close` on an open pool, whoever is at its lock, can drive it beyond `max_size` exactly if the
      caller finds no such room. */
  lemma CallingClose(limits: Limits, trace: seq<State>, steps: seq<Step>, t: Task)
    requires Run(limits, trace, steps) && !trace[|steps|].closed && Enabled(trace[|steps|], StartClose(t))
    ensures NeverOverruns(limits, After(limits, trace[|steps|], StartClose(t))) <==> RoomToClose(limits, trace[|steps|])
  {
    RunSafe(limits, trace, steps, |steps|);
    hide Run;
    hide Safe;
    hide Enabled;
    hide After;
    hide Lingering;
    hide Count;
    hide LineOf;
    hide Line;
    hide Gain;
    hide Arrivals;
    hide NeverOverruns;
    var s := trace[|steps|];
    var c := After(limits, s, StartClose(t));
    Closes(limits, s, t);
    NoneCloses(limits, s);
    var p := |LineOf(s)|;
    assert LineOf(c)[..p] == LineOf(s) && LineOf(c)[p + 1..] == [] && LineOf(c)[p..] == [Closing];
    if RoomToClose(limits, s) {
      RoomForNobody(Count(c.tasks, Attached) + Gain(LineOf(s)) + |Rest(limits, s.idle, Arrivals(LineOf(s)))|,
                    Count(c.tasks, Applying), limits.maxSize);
      assert RoomAt(limits, c, p);
      SettlingSuffices(limits, c);
    } else {
      SweepsTooLate(limits, c, t, p);
    }
  }

  lemma RoomForNobody(base: int, waiting: nat, most: nat)
    ensures Room(base, [], waiting, most) <==> base + waiting <= most
  {
    NothingGained();
    var none: seq<Place> := [];
    assert none[..0] == [];
  }

  /** The tasks ahead are served, the `close` sweeps what they leave, and the others connect. */
  lemma SweepsTooLate(limits: Limits, c: State, t: Task, p: nat)
    requires Safe(limits, c) && c.closed && Lingering(c) == {} && p < |LineOf(c)| && p < |Line(c)|
    requires LineOf(c)[p..] == [Closing] && Line(c)[p] == t && forall i :: 0 <= i < p ==> !LineOf(c)[i].Closing?
    requires var left := |Rest(limits, c.idle, Arrivals(LineOf(c)[..p]))|;
             && left != 0
             && Count(c.tasks, Attached) + Gain(LineOf(c)[..p]) + left + Count(c.tasks, Applying) > limits.maxSize
    ensures !NeverOverruns(limits, c)
  {
    hide Safe;
    hide Enabled;
    hide After;
    hide Lingering;
    hide Count;
    hide LineOf;
    hide Line;
    hide Gain;
    hide Arrivals;
    hide NeverOverruns;
    var trace, steps := ServeFirst(limits, c, p);
    var s := trace[|steps|];
    HeadEnabled(limits, s);
    assert Line(s)[0] == t && LineOf(s)[0] == Closing;
    var swept := After(limits, s, Sweep(t));
    Swept(limits, s, t);
    assert LineOf(swept) == [];
    RoomForNobody(Sum(swept), Count(swept.tasks, Applying), limits.maxSize);
    NoRoom(limits, swept);
    var one := [swept];
    Chain(limits, s, Sweep(t), one, []);
    Join(limits, trace, steps, [s] + one, [Sweep(t)] + []);
    OverrunsEarlier(limits, trace + ([s] + one)[1..], steps + ([Sweep(t)] + []));
  }
}
