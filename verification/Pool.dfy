/** The bounded connection pool, cut at its awaits: between two of them a task runs undisturbed, at
    each of them any other task may run. The lock is asyncio's: who finds it free and nobody waiting takes it
    and runs on, everybody else is served in the order of arrival. */
module Pool {
  import opened Wrappers

  type Task = nat

  datatype Conn = Conn(id: nat, uses: nat)

  datatype Limits = Limits(maxSize: nat, minSize: nat, maxUses: nat)

  /** Where a task stands in `acquire`, `release` or `close`. */
  datatype Place =
    | Outside
    | Waiting                             // for a permit
    | Permitted                           // for the lock, in acquire
    | Checking                            // holds the lock, at the head of the loop
    | Reaping(conn: Conn)                 // holds the lock, closes an expired connection
    | Connecting
    | Failing                             // connect has raised; for the lock
    | Holding(conn: Conn)                 // the caller has it
    | Returning(conn: Conn, reuse: bool)  // for the lock, in release
    | Dropping(conn: Conn)                // holds the lock, closes the connection
    | Closing                             // for the lock, in close
    | Sweeping(conns: seq<Conn>)          // closes what was idle

  /** `queue` holds the tasks that wait for the lock; `running` is the task that has come to a point which is
      no await, if there is one: nobody else moves before it. */
  datatype State = State(
    idle: seq<Conn>, inUse: int, closed: bool, permits: int,
    lock: Option<Task>, queue: seq<Task>, running: Option<Task>,
    created: int, reused: int, discarded: int,
    tasks: map<Task, Place>, next: nat, swept: nat)

  datatype Step =
    | StartAcquire(task: Task)
    | TakePermit(task: Task)
    | Enter(task: Task)
    | Check(task: Task, dead: bool, stale: bool)
    | Reaped(task: Task)
    | Connected(task: Task)
    | ConnectFails(task: Task)
    | Recover(task: Task)
    | StartRelease(task: Task, reuse: bool)
    | PutBack(task: Task, dead: bool)
    | Dropped(task: Task)
    | StartClose(task: Task)
    | Sweep(task: Task)
    | CloseOne(task: Task)

  /** `_expired`, the clock and the far end given. */
  predicate Expired(limits: Limits, conn: Conn, idle: nat, dead: bool, stale: bool) {
    dead || (limits.maxUses != 0 && conn.uses >= limits.maxUses) || (idle > limits.minSize && stale)
  }

  predicate AtLock(place: Place) { place.Permitted? || place.Failing? || place.Returning? || place.Closing? }

  /** The lock is free, and it is this task's turn. */
  predicate MayLock(s: State, t: Task) {
    s.lock.None? && (s.running == Some(t) || (s.queue != [] && s.queue[0] == t))
  }

  predicate Enabled(s: State, step: Step) {
    && step.task in s.tasks && (s.running.None? || s.running.value == step.task)
    && match (step, s.tasks[step.task])
       case (StartAcquire(_), Outside) => true
       case (TakePermit(_), Waiting) => s.permits > 0
       case (Enter(_), Permitted) => MayLock(s, step.task)
       case (Check(_, _, _), Checking) => true
       case (Reaped(_), Reaping(_)) => true
       case (Connected(_), Connecting) => true
       case (ConnectFails(_), Connecting) => true
       case (Recover(_), Failing) => MayLock(s, step.task)
       case (StartRelease(_, _), Holding(_)) => true
       case (PutBack(_, _), Returning(_, _)) => MayLock(s, step.task)
       case (Dropped(_), Dropping(_)) => true
       case (StartClose(_), Outside) => true
       case (Sweep(_), Closing) => MayLock(s, step.task)
       case (CloseOne(_), Sweeping(_)) => true
       case _ => false
  }

  function Less(n: int): int { if n - 1 > 0 then n - 1 else 0 }

  /** `async with self._lock`, up to the lock: run on if it is free and nobody waits for it. */
  function Arrive(s: State, t: Task, place: Place): State {
    if s.lock.None? && s.queue == [] then s.(running := Some(t), tasks := s.tasks[t := place])
    else s.(queue := s.queue + [t], running := None, tasks := s.tasks[t := place])
  }

  /** The turn has come, and the task goes on to its next await. */
  function Served(s: State, t: Task): State {
    s.(queue := if s.running == Some(t) || s.queue == [] then s.queue else s.queue[1..], running := None)
  }

  /** The state after a step. */
  function After(limits: Limits, s: State, step: Step): State
    requires Enabled(s, step)
  {
    var t := step.task;
    match step
    case StartAcquire(_) => if s.closed then s else s.(tasks := s.tasks[t := Waiting])
    case TakePermit(_) => Arrive(s.(permits := s.permits - 1), t, Permitted)
    case Enter(_) => Served(s, t).(lock := Some(t), running := Some(t), tasks := s.tasks[t := Checking])
    case Check(_, dead, stale) =>
      if s.idle == [] then
        s.(inUse := s.inUse + 1, lock := None, running := None, tasks := s.tasks[t := Connecting])
      else
        var rest, conn := s.idle[..|s.idle| - 1], s.idle[|s.idle| - 1];
        if Expired(limits, conn, |rest|, dead, stale) then
          s.(idle := rest, discarded := s.discarded + 1, running := None, tasks := s.tasks[t := Reaping(conn)])
        else
          s.(idle := rest, inUse := s.inUse + 1, reused := s.reused + 1, lock := None, running := None,
             tasks := s.tasks[t := Holding(conn.(uses := conn.uses + 1))])
    case Reaped(_) => s.(running := Some(t), tasks := s.tasks[t := Checking])
    case Connected(_) =>
      s.(created := s.created + 1, next := s.next + 1, tasks := s.tasks[t := Holding(Conn(s.next, 1))])
    case ConnectFails(_) => Arrive(s, t, Failing)
    case Recover(_) =>
      Served(s, t).(inUse := Less(s.inUse), permits := s.permits + 1, tasks := s.tasks[t := Outside])
    case StartRelease(_, reuse) => Arrive(s, t, Returning(s.tasks[t].conn, reuse))
    case PutBack(_, dead) =>
      var conn := s.tasks[t].conn;
      if s.tasks[t].reuse && !s.closed && !dead then
        Served(s, t).(inUse := Less(s.inUse), idle := s.idle + [conn], permits := s.permits + 1,
                      tasks := s.tasks[t := Outside])
      else
        Served(s, t).(inUse := Less(s.inUse), discarded := s.discarded + 1, lock := Some(t),
                      tasks := s.tasks[t := Dropping(conn)])
    case Dropped(_) => s.(lock := None, permits := s.permits + 1, tasks := s.tasks[t := Outside])
    case StartClose(_) => Arrive(s.(closed := true), t, Closing)
    case Sweep(_) =>
      Served(s, t).(idle := [], swept := s.swept + |s.idle|, tasks := s.tasks[t := Sweeping(s.idle)])
    case CloseOne(_) =>
      var conns := s.tasks[t].conns;
      if conns == [] then s.(tasks := s.tasks[t := Outside]) else s.(tasks := s.tasks[t := Sweeping(conns[1..])])
  }

  // ------------------------------------------------------------ what each place entails

  datatype Role = HasPermit | Counted | Attached | Handed | Applying

  /** Holding a permit; being counted in `_in_use`; having a socket or opening one; having a
      connection that is neither idle nor given up; waiting for a permit. */
  predicate Plays(role: Role, place: Place) {
    match role
    case HasPermit => !place.Outside? && !place.Waiting? && !place.Closing? && !place.Sweeping?
    case Counted => place.Connecting? || place.Failing? || place.Holding? || place.Returning?
    case Attached => place.Reaping? || place.Connecting? || place.Holding? || place.Returning? || place.Dropping?
    case Handed => place.Holding? || place.Returning?
    case Applying => place.Waiting?
  }

  ghost function Players(tasks: map<Task, Place>, role: Role): set<Task> {
    set t | t in tasks && Plays(role, tasks[t])
  }

  ghost function Count(tasks: map<Task, Place>, role: Role): nat { |Players(tasks, role)| }

  predicate InsideLock(place: Place) { place.Checking? || place.Reaping? || place.Dropping? }

  /** The connections a task alone knows of. */
  function Owned(place: Place): seq<Conn> {
    match place
    case Reaping(c) => [c]
    case Holding(c) => [c]
    case Returning(c, _) => [c]
    case Dropping(c) => [c]
    case Sweeping(cs) => cs
    case _ => []
  }

  ghost predicate DistinctIds(cs: seq<Conn>) { forall i, j :: 0 <= i < j < |cs| ==> cs[i].id != cs[j].id }

  ghost predicate Apart(a: seq<Conn>, b: seq<Conn>) { forall c, d :: c in a && d in b ==> c.id != d.id }

  ghost predicate Known(limits: Limits, cs: seq<Conn>, next: nat) {
    forall c :: c in cs ==> c.id < next && 1 <= c.uses && (limits.maxUses != 0 ==> c.uses <= limits.maxUses)
  }

  /** One task's share of the invariant. */
  ghost predicate TaskOk(limits: Limits, s: State, t: Task)
    requires t in s.tasks
  {
    && (InsideLock(s.tasks[t]) <==> s.lock == Some(t))
    && DistinctIds(Owned(s.tasks[t])) && Known(limits, Owned(s.tasks[t]), s.next)
    && Apart(Owned(s.tasks[t]), s.idle)
    && (s.tasks[t].Closing? || s.tasks[t].Sweeping? ==> s.closed)
  }

  ghost predicate PairOk(s: State, t: Task, u: Task)
    requires t in s.tasks && u in s.tasks
  {
    t != u ==> Apart(Owned(s.tasks[t]), Owned(s.tasks[u]))
  }

  ghost predicate Owners(limits: Limits, s: State) {
    && (forall t {:trigger TaskOk(limits, s, t)} :: t in s.tasks ==> TaskOk(limits, s, t))
    && (forall t, u {:trigger PairOk(s, t, u)} :: t in s.tasks && u in s.tasks ==> PairOk(s, t, u))
    && DistinctIds(s.idle) && Known(limits, s.idle, s.next)
    && (s.lock.Some? ==> s.lock.value in s.tasks)
  }

  ghost predicate Sweepable(s: State) { exists t :: t in s.tasks && s.tasks[t].Closing? }

  ghost predicate Books(limits: Limits, s: State) {
    && s.permits >= 0 && s.permits + Count(s.tasks, HasPermit) == limits.maxSize
    && s.inUse == Count(s.tasks, Counted)
    && |s.idle| + Count(s.tasks, Attached) <= limits.maxSize
    && s.created == s.discarded + |s.idle| + Count(s.tasks, Handed) + s.swept
    && (!s.closed ==> s.swept == 0)
    && (s.closed ==> s.idle == [] || Sweepable(s))
  }

  /** One task's share of the order at the lock: it is in the queue exactly while it waits there. */
  ghost predicate LineOk(s: State, t: Task)
    requires t in s.tasks
  {
    && (t in s.queue ==> AtLock(s.tasks[t]) && s.running != Some(t))
    && (AtLock(s.tasks[t]) ==> t in s.queue || s.running == Some(t))
    && (s.tasks[t].Checking? ==> s.running == Some(t))
    && (s.running == Some(t) ==> s.tasks[t].Checking? || (AtLock(s.tasks[t]) && s.lock.None? && s.queue == []))
  }

  ghost predicate NoneTwice(q: seq<Task>) { forall i, j :: 0 <= i < j < |q| ==> q[i] != q[j] }

  ghost predicate Ordered(s: State) {
    && NoneTwice(s.queue) && (forall t :: t in s.queue ==> t in s.tasks)
    && (s.running.Some? ==> s.running.value in s.tasks)
    && forall t {:trigger LineOk(s, t)} :: t in s.tasks ==> LineOk(s, t)
  }

  ghost predicate Safe(limits: Limits, s: State) { Owners(limits, s) && Books(limits, s) && Ordered(s) }

  ghost predicate Fresh(limits: Limits, s: State) {
    && s == State([], 0, false, limits.maxSize, None, [], None, 0, 0, 0, s.tasks, 0, 0)
    && forall t :: t in s.tasks ==> s.tasks[t].Outside?
  }

  // ------------------------------------------------------------ the books are kept

  /** Moving one task changes a count by what it stops and what it starts playing. */
  lemma Moved(tasks: map<Task, Place>, t: Task, place: Place, role: Role)
    requires t in tasks
    ensures Count(tasks[t := place], role)
         == Count(tasks, role) - (if Plays(role, tasks[t]) then 1 else 0) + (if Plays(role, place) then 1 else 0)
  {
    OthersStay(tasks, t, place, role);
    WithOrWithout(Players(tasks, role), t);
    WithOrWithout(Players(tasks[t := place], role), t);
  }

  lemma OthersStay(tasks: map<Task, Place>, t: Task, place: Place, role: Role)
    ensures Players(tasks[t := place], role) - {t} == Players(tasks, role) - {t}
  {
    hide Plays;
    forall u ensures u in Players(tasks[t := place], role) - {t} <==> u in Players(tasks, role) - {t} {}
  }

  lemma WithOrWithout<T>(s: set<T>, x: T)
    ensures |s| == |s - {x}| + if x in s then 1 else 0
  {
    if x in s { assert s == s - {x} + {x}; } else { assert s == s - {x}; }
  }

  /** A permit holder without a socket leaves room for one. */
  lemma RoomToConnect(tasks: map<Task, Place>, t: Task)
    requires t in tasks && Plays(HasPermit, tasks[t]) && !Plays(Attached, tasks[t])
    ensures Count(tasks, Attached) + 1 <= Count(tasks, HasPermit)
  {
    var attached := Players(tasks, Attached);
    var others := Players(tasks, HasPermit) - attached - {t};
    assert Players(tasks, HasPermit) == attached + {t} + others;
  }

  /** Nobody but the task that sweeps stops waiting to sweep. */
  lemma StillSweepable(limits: Limits, s: State, step: Step)
    requires Enabled(s, step) && !step.Sweep? && Sweepable(s)
    ensures Sweepable(After(limits, s, step))
  {
    hide Expired;
    var u :| u in s.tasks && s.tasks[u].Closing?;
    assert u in After(limits, s, step).tasks && After(limits, s, step).tasks[u].Closing?;
  }

  lemma NowSweepable(limits: Limits, s: State, step: Step)
    requires Enabled(s, step) && step.StartClose?
    ensures Sweepable(After(limits, s, step))
  {
    assert After(limits, s, step).tasks[step.task].Closing?;
  }

  /** What a step does to the places: it moves one task. */
  lemma OneMoves(limits: Limits, s: State, step: Step) returns (place: Place)
    requires Enabled(s, step)
    ensures After(limits, s, step).tasks == s.tasks[step.task := place]
    ensures place == After(limits, s, step).tasks[step.task]
  {
    hide Expired;
    place := After(limits, s, step).tasks[step.task];
    assert s.tasks == s.tasks[step.task := s.tasks[step.task]];
  }

  lemma BooksKept(limits: Limits, s: State, step: Step)
    requires Books(limits, s) && Enabled(s, step) && (step.Sweep? ==> s.closed)
    ensures Books(limits, After(limits, s, step))
  {
    hide Count;
    hide Expired;
    hide Sweepable;
    var place := OneMoves(limits, s, step);
    Moved(s.tasks, step.task, place, HasPermit);
    Moved(s.tasks, step.task, place, Counted);
    Moved(s.tasks, step.task, place, Attached);
    Moved(s.tasks, step.task, place, Handed);
    if step.Check? { RoomToConnect(s.tasks, step.task); }
    if Sweepable(s) && !step.Sweep? { StillSweepable(limits, s, step); }
    if step.StartClose? { NowSweepable(limits, s, step); }
  }

  // ------------------------------------------------------------ no connection has two owners

  /** How connections change hands between the idle list and the task that moves. */
  predicate Transfer(idle: seq<Conn>, owned: seq<Conn>, next: nat, idle': seq<Conn>, owned': seq<Conn>, next': nat) {
    || (idle' == idle && next' == next && (owned' == owned || owned' == [] || (owned != [] && owned' == owned[1..])))
    || (owned == [] && idle != [] && idle' == idle[..|idle| - 1] && next' == next
        && |owned'| == 1 && owned'[0].id == idle[|idle| - 1].id)
    || (|owned| == 1 && idle' == idle + owned && owned' == [] && next' == next)
    || (owned == [] && idle' == [] && owned' == idle && next' == next)
    || (owned == [] && idle' == idle && |owned'| == 1 && owned'[0].id == next && next' == next + 1)
  }

  lemma StepTransfers(limits: Limits, s: State, step: Step)
    requires Enabled(s, step)
    ensures var s' := After(limits, s, step);
            step.task in s'.tasks &&
            Transfer(s.idle, Owned(s.tasks[step.task]), s.next, s'.idle, Owned(s'.tasks[step.task]), s'.next)
  {
    hide Expired;
  }

  ghost predicate Below(cs: seq<Conn>, next: nat) { forall c :: c in cs ==> c.id < next }

  lemma TransferKeepsApart(
    idle: seq<Conn>, owned: seq<Conn>, next: nat, idle': seq<Conn>, owned': seq<Conn>, next': nat)
    requires Transfer(idle, owned, next, idle', owned', next')
    requires DistinctIds(idle) && DistinctIds(owned) && Apart(owned, idle) && Below(idle, next) && Below(owned, next)
    ensures DistinctIds(idle') && DistinctIds(owned') && Apart(owned', idle')
  {
    forall c, d | c in owned' && d in idle' ensures c.id != d.id {
      if d in idle && owned == [] && c.id == idle[|idle| - 1].id {
        var i :| 0 <= i < |idle'| && idle'[i] == d;
      }
    }
  }

  lemma TransferLeavesApart(
    idle: seq<Conn>, owned: seq<Conn>, next: nat, idle': seq<Conn>, owned': seq<Conn>, next': nat,
                            other: seq<Conn>)
    requires Transfer(idle, owned, next, idle', owned', next') && Below(other, next)
    requires Apart(other, idle) && Apart(other, owned)
    ensures Apart(other, idle') && Apart(other, owned')
  {}

  lemma CheckKnown(limits: Limits, s: State, step: Step)
    requires Enabled(s, step) && step.Check? && Known(limits, s.idle, s.next)
    ensures var s' := After(limits, s, step);
            Known(limits, s'.idle, s'.next) && Known(limits, Owned(s'.tasks[step.task]), s'.next) && s.next <= s'.next
  {
    if s.idle != [] { assert s.idle[|s.idle| - 1] in s.idle; }
  }

  lemma KnownKept(limits: Limits, s: State, step: Step)
    requires Enabled(s, step) && Known(limits, s.idle, s.next) && Known(limits, Owned(s.tasks[step.task]), s.next)
    ensures var s' := After(limits, s, step);
            Known(limits, s'.idle, s'.next) && Known(limits, Owned(s'.tasks[step.task]), s'.next) && s.next <= s'.next
  {
    hide Expired;
    if step.Check? {
      CheckKnown(limits, s, step);
    } else if step.PutBack? {
      assert s.tasks[step.task].conn in Owned(s.tasks[step.task]);
    }
  }

  lemma LockKept(limits: Limits, s: State, step: Step, t: Task)
    requires Enabled(s, step) && t in s.tasks
    requires InsideLock(s.tasks[t]) <==> s.lock == Some(t)
    requires InsideLock(s.tasks[step.task]) <==> s.lock == Some(step.task)
    requires s.tasks[t].Closing? || s.tasks[t].Sweeping? ==> s.closed
    ensures var s' := After(limits, s, step);
            t in s'.tasks && (InsideLock(s'.tasks[t]) <==> s'.lock == Some(t))
            && (s'.tasks[t].Closing? || s'.tasks[t].Sweeping? ==> s'.closed)
  {
    hide Expired;
  }

  lemma MoverKept(limits: Limits, s: State, step: Step)
    requires Owners(limits, s) && Enabled(s, step)
    ensures var s' := After(limits, s, step);
            step.task in s'.tasks && TaskOk(limits, s', step.task) && DistinctIds(s'.idle)
              && Known(limits, s'.idle, s'.next)
  {
    hide After;
    hide Owned;
    hide InsideLock;
    hide Transfer;
    hide Apart;
    hide DistinctIds;
    var t, s' := step.task, After(limits, s, step);
    assert TaskOk(limits, s, t);
    StepTransfers(limits, s, step);
    KnownKept(limits, s, step);
    LockKept(limits, s, step, t);
    TransferKeepsApart(s.idle, Owned(s.tasks[t]), s.next, s'.idle, Owned(s'.tasks[t]), s'.next);
  }

  lemma OtherKept(limits: Limits, s: State, step: Step, u: Task)
    requires Owners(limits, s) && Enabled(s, step) && u in s.tasks && u != step.task
    ensures var s' := After(limits, s, step);
            u in s'.tasks && s'.tasks[u] == s.tasks[u] && step.task in s'.tasks &&
            TaskOk(limits, s', u) && PairOk(s', u, step.task) && PairOk(s', step.task, u)
  {
    hide After;
    hide Owned;
    hide InsideLock;
    hide Transfer;
    hide DistinctIds;
    var t, s' := step.task, After(limits, s, step);
    assert TaskOk(limits, s, t) && TaskOk(limits, s, u) && PairOk(s, u, t);
    var place := OneMoves(limits, s, step);
    StepTransfers(limits, s, step);
    KnownKept(limits, s, step);
    LockKept(limits, s, step, u);
    TransferLeavesApart(s.idle, Owned(s.tasks[t]), s.next, s'.idle, Owned(s'.tasks[t]), s'.next, Owned(s.tasks[u]));
  }

  lemma OwnersKept(limits: Limits, s: State, step: Step)
    requires Owners(limits, s) && Enabled(s, step)
    ensures Owners(limits, After(limits, s, step))
  {
    hide After;
    hide Owned;
    hide DistinctIds;
    hide Known;
    hide TaskOk;
    var s' := After(limits, s, step);
    var place := OneMoves(limits, s, step);
    MoverKept(limits, s, step);
    forall u | u in s'.tasks ensures TaskOk(limits, s', u) {
      if u != step.task { OtherKept(limits, s, step, u); }
    }
    forall u, v | u in s'.tasks && v in s'.tasks ensures PairOk(s', u, v) {
      if u != step.task { OtherKept(limits, s, step, u); }
      if v != step.task { OtherKept(limits, s, step, v); }
      assert PairOk(s, u, v);
    }
    LockOwnerExists(limits, s, step);
  }

  lemma LockOwnerExists(limits: Limits, s: State, step: Step)
    requires Enabled(s, step) && (s.lock.Some? ==> s.lock.value in s.tasks)
    ensures var s' := After(limits, s, step); s'.lock.Some? ==> s'.lock.value in s'.tasks
  {
    hide Expired;
  }

  // ------------------------------------------------------------ the order at the lock

  /** How a step changes the queue: somebody joins it, its head leaves it, or nothing. */
  predicate QueueMoves(queue: seq<Task>, t: Task, queue': seq<Task>) {
    queue' == queue || queue' == queue + [t] || (queue != [] && queue[0] == t && queue' == queue[1..])
  }

  lemma StepMovesQueue(limits: Limits, s: State, step: Step)
    requires Enabled(s, step)
    ensures QueueMoves(s.queue, step.task, After(limits, s, step).queue)
  {
    hide Expired;
  }

  lemma QueueStaysDistinct(queue: seq<Task>, t: Task, queue': seq<Task>)
    requires QueueMoves(queue, t, queue') && NoneTwice(queue) && (queue' == queue + [t] ==> t !in queue)
    ensures NoneTwice(queue')
    ensures forall u :: u != t ==> (u in queue' <==> u in queue)
  {
    if queue != [] && queue' == queue[1..] { assert queue == [queue[0]] + queue'; }
  }

  /** Who moves is in the queue afterwards exactly if it has just joined it. */
  lemma MoverQueues(limits: Limits, s: State, step: Step)
    requires Enabled(s, step) && LineOk(s, step.task) && NoneTwice(s.queue)
    requires (InsideLock(s.tasks[step.task]) <==> s.lock == Some(step.task))
    ensures var t, s' := step.task, After(limits, s, step);
            t in s'.queue <==> AtLock(s'.tasks[t]) && !(s.lock.None? && s.queue == [])
    ensures After(limits, s, step).queue == s.queue + [step.task] ==> step.task !in s.queue
  {
    hide Expired;
    hide NoneTwice;
    var t, s' := step.task, After(limits, s, step);
    if s.queue != [] && s.queue[0] == t { HeadGone(s.queue); }
    if s'.queue == s.queue + [t] { assert |s'.queue| == |s.queue| + 1 && s'.queue[|s.queue|] == t; }
  }

  lemma HeadGone(queue: seq<Task>)
    requires NoneTwice(queue) && queue != []
    ensures queue[0] !in queue[1..]
  {}

  lemma MoverInLine(limits: Limits, s: State, step: Step)
    requires Enabled(s, step) && LineOk(s, step.task) && NoneTwice(s.queue)
    requires (InsideLock(s.tasks[step.task]) <==> s.lock == Some(step.task))
    ensures var s' := After(limits, s, step); step.task in s'.tasks && LineOk(s', step.task)
    ensures After(limits, s, step).queue == s.queue + [step.task] ==> step.task !in s.queue
  {
    hide Expired;
    hide NoneTwice;
    MoverQueues(limits, s, step);
  }

  lemma OthersInLine(limits: Limits, s: State, step: Step, u: Task)
    requires Enabled(s, step) && u in s.tasks && u != step.task && LineOk(s, u) && LineOk(s, step.task)
    requires (InsideLock(s.tasks[u]) <==> s.lock == Some(u))
    requires forall v :: v != step.task ==> (v in After(limits, s, step).queue <==> v in s.queue)
    ensures var s' := After(limits, s, step); u in s'.tasks && LineOk(s', u)
  {
    hide Expired;
  }

  lemma OrderKept(limits: Limits, s: State, step: Step)
    requires Owners(limits, s) && Ordered(s) && Enabled(s, step)
    ensures Ordered(After(limits, s, step))
  {
    hide After;
    hide Enabled;
    hide LineOk;
    hide NoneTwice;
    hide QueueMoves;
    hide PairOk;
    var t, s' := step.task, After(limits, s, step);
    assert Enabled(s, step) ==> t in s.tasks by { EnabledTask(s, step); }
    assert TaskOk(limits, s, t) && LineOk(s, t);
    var place := OneMoves(limits, s, step);
    StepMovesQueue(limits, s, step);
    MoverInLine(limits, s, step);
    QueueStaysDistinct(s.queue, t, s'.queue);
    forall u | u in s'.tasks ensures LineOk(s', u) {
      assert u != t ==> TaskOk(limits, s, u) && LineOk(s, u);
      if u != t { OthersInLine(limits, s, step, u); }
    }
    RunnerExists(limits, s, step);
  }

  lemma EnabledTask(s: State, step: Step)
    requires Enabled(s, step)
    ensures step.task in s.tasks
  {}

  lemma RunnerExists(limits: Limits, s: State, step: Step)
    requires Enabled(s, step)
    ensures var s' := After(limits, s, step); s'.running.Some? ==> s'.running.value == step.task
  {
    hide Expired;
  }

  // ------------------------------------------------------------ whole runs

  /** One step after the other. */
  ghost predicate Steps(limits: Limits, trace: seq<State>, steps: seq<Step>) {
    && |trace| == |steps| + 1
    && forall i :: 0 <= i < |steps| ==> Enabled(trace[i], steps[i]) && trace[i + 1] == After(limits, trace[i], steps[i])
  }

  /** A run: some tasks, all of them outside, and then steps. */
  ghost predicate Run(limits: Limits, trace: seq<State>, steps: seq<Step>) {
    Steps(limits, trace, steps) && Fresh(limits, trace[0])
  }

  lemma FreshIsSafe(limits: Limits, s: State)
    requires Fresh(limits, s)
    ensures Safe(limits, s)
  {
    forall role ensures Players(s.tasks, role) == {} {}
    forall t | t in s.tasks ensures TaskOk(limits, s, t) {}
    forall t, u | t in s.tasks && u in s.tasks ensures PairOk(s, t, u) {}
  }

  lemma SafeKept(limits: Limits, s: State, step: Step)
    requires Safe(limits, s) && Enabled(s, step)
    ensures Safe(limits, After(limits, s, step))
  {
    hide Books;
    hide After;
    hide Ordered;
    assert TaskOk(limits, s, step.task);
    OwnersKept(limits, s, step);
    BooksKept(limits, s, step);
    OrderKept(limits, s, step);
  }

  /** The invariant holds all the way, whatever the tasks do and however connects fail. */
  lemma {:induction false} RunSafe(limits: Limits, trace: seq<State>, steps: seq<Step>, i: nat)
    requires Run(limits, trace, steps) && i < |trace|
    ensures Safe(limits, trace[i])
  {
    hide Safe;
    hide Enabled;
    hide After;
    if i == 0 {
      FreshIsSafe(limits, trace[0]);
    } else {
      RunSafe(limits, trace, steps, i - 1);
      SafeKept(limits, trace[i - 1], steps[i - 1]);
    }
  }

  // ------------------------------------------------------------ what the invariant says

  /** The connections a `close` has taken over and not closed yet. */
  ghost function Lingering(s: State): set<Conn> {
    set t, c | t in s.tasks && s.tasks[t].Sweeping? && c in s.tasks[t].conns :: c
  }

  /** Sockets open or being opened: idle, with a task, or waiting for `close` to get to them. */
  ghost function Sockets(s: State): nat { |s.idle| + Count(s.tasks, Attached) + |Lingering(s)| }

  /** Never more than `max_size` sockets, those a `close` is still closing apart. */
  lemma SocketsBounded(limits: Limits, trace: seq<State>, steps: seq<Step>, i: nat)
    requires Run(limits, trace, steps) && i < |trace|
    ensures Sockets(trace[i]) <= limits.maxSize + |Lingering(trace[i])|
  {
    hide Run;
    RunSafe(limits, trace, steps, i);
  }

  /** So as long as nobody has called `close`, never more than `max_size`. */
  lemma OpenPoolBounded(limits: Limits, trace: seq<State>, steps: seq<Step>, i: nat)
    requires Run(limits, trace, steps) && i < |trace| && !trace[i].closed
    ensures Sockets(trace[i]) <= limits.maxSize
  {
    hide Run;
    RunSafe(limits, trace, steps, i);
    SocketsBounded(limits, trace, steps, i);
    forall t | t in trace[i].tasks ensures !trace[i].tasks[t].Sweeping? { assert TaskOk(limits, trace[i], t); }
    assert Lingering(trace[i]) == {};
  }

  ghost predicate Ends(limits: Limits, trace: seq<State>, steps: seq<Step>, s: State) {
    Run(limits, trace, steps) && trace[|steps|] == s
  }

  lemma Grow(limits: Limits, trace: seq<State>, steps: seq<Step>, s: State, step: Step)
      returns (trace': seq<State>, steps': seq<Step>, s': State)
    requires Ends(limits, trace, steps, s) && Enabled(s, step)
    ensures s' == After(limits, s, step) && Ends(limits, trace', steps', s')
  {
    hide Enabled;
    hide After;
    s' := After(limits, s, step);
    trace', steps' := trace + [s'], steps + [step];
  }

  lemma OneEnters() returns (trace: seq<State>, steps: seq<Step>, s: State)
    ensures Ends(Limits(1, 0, 0), trace, steps, s)
    ensures s == State([], 0, false, 0, Some(1), [], Some(1), 0, 0, 0, map[1 := Checking, 2 := Outside], 0, 0)
  {
    hide Expired;
    hide Ends;
    var limits := Limits(1, 0, 0);
    s := State([], 0, false, 1, None, [], None, 0, 0, 0, map[1 := Outside, 2 := Outside], 0, 0);
    trace, steps := [s], [];
    RunStarts(limits, s);
    trace, steps, s := Grow(limits, trace, steps, s, StartAcquire(1));
    trace, steps, s := Grow(limits, trace, steps, s, TakePermit(1));
    assert s == State([], 0, false, 0, None, [], Some(1), 0, 0, 0, map[1 := Permitted, 2 := Outside], 0, 0);
    trace, steps, s := Grow(limits, trace, steps, s, Enter(1));
  }

  lemma OneConnects() returns (trace: seq<State>, steps: seq<Step>, s: State)
    ensures Ends(Limits(1, 0, 0), trace, steps, s)
    ensures s == State([], 1, false, 0, None, [], None, 1, 0, 0, map[1 := Holding(Conn(0, 1)), 2 := Outside], 1, 0)
  {
    hide Expired;
    hide Ends;
    var limits := Limits(1, 0, 0);
    trace, steps, s := OneEnters();
    trace, steps, s := Grow(limits, trace, steps, s, Check(1, false, false));
    assert s == State([], 1, false, 0, None, [], None, 0, 0, 0, map[1 := Connecting, 2 := Outside], 0, 0);
    trace, steps, s := Grow(limits, trace, steps, s, Connected(1));
  }

  lemma RunStarts(limits: Limits, s: State)
    requires Fresh(limits, s)
    ensures Ends(limits, [s], [], s)
  {}

  lemma OneReturns() returns (trace: seq<State>, steps: seq<Step>, s: State)
    ensures Ends(Limits(1, 0, 0), trace, steps, s)
    ensures s == State([Conn(0, 1)], 0, false, 1, None, [], None, 1, 0, 0, map[1 := Outside, 2 := Waiting], 1, 0)
  {
    hide Ends;
    var limits := Limits(1, 0, 0);
    trace, steps, s := OneConnects();
    trace, steps, s := Grow(limits, trace, steps, s, StartAcquire(2));
    trace, steps, s := Grow(limits, trace, steps, s, StartRelease(1, true));
    trace, steps, s := Grow(limits, trace, steps, s, PutBack(1, false));
  }

  lemma OneSweeps() returns (trace: seq<State>, steps: seq<Step>, s: State)
    ensures Ends(Limits(1, 0, 0), trace, steps, s)
    ensures s == State([], 0, true, 1, None, [], None, 1, 0, 0, map[1 := Sweeping([Conn(0, 1)]), 2 := Waiting], 1, 1)
  {
    hide Ends;
    var limits := Limits(1, 0, 0);
    trace, steps, s := OneReturns();
    trace, steps, s := Grow(limits, trace, steps, s, StartClose(1));
    trace, steps, s := Grow(limits, trace, steps, s, Sweep(1));
  }

  lemma AnotherConnects(trace: seq<State>, steps: seq<Step>, s: State, first: Place)
      returns (trace': seq<State>, steps': seq<Step>, s': State)
    requires Ends(Limits(1, 0, 0), trace, steps, s)
    requires s == State([], 0, true, 1, None, [], None, 1, 0, 0, map[1 := first, 2 := Waiting], 1, 1)
    ensures Ends(Limits(1, 0, 0), trace', steps', s') && s'.tasks == map[1 := first, 2 := Connecting]
  {
    hide Ends;
    var limits := Limits(1, 0, 0);
    trace', steps', s' := Grow(limits, trace, steps, s, TakePermit(2));
    trace', steps', s' := Grow(limits, trace', steps', s', Enter(2));
    trace', steps', s' := Grow(limits, trace', steps', s', Check(2, false, false));
  }

  /** While `close` is still closing, an acquire that was already waiting connects anew: one socket too
      many for a pool of one. Task 1 hands its connection back and closes the pool, task 2 waits. */
  lemma ClosingOverruns() returns (trace: seq<State>, steps: seq<Step>)
    ensures Run(Limits(1, 0, 0), trace, steps)
    ensures Sockets(trace[|steps|]) > 1
  {
    hide Run;
    hide Sockets;
    var s;
    trace, steps, s := OneSweeps();
    trace, steps, s := AnotherConnects(trace, steps, s, Sweeping([Conn(0, 1)]));
    Overrun(s, Conn(0, 1));
  }

  lemma Overrun(s: State, c: Conn)
    requires s.tasks == map[1 := Sweeping([c]), 2 := Connecting]
    ensures Sockets(s) > 1
  {
    assert c in s.tasks[1].conns;
    assert c in Lingering(s);
    assert 2 in Players(s.tasks, Attached);
  }

  /** At most one task has a given connection, and none has an idle one. */
  lemma OneHolder(limits: Limits, trace: seq<State>, steps: seq<Step>, i: nat, t: Task, u: Task, c: Conn, d: Conn)
    requires Run(limits, trace, steps) && i < |trace| && t in trace[i].tasks && c in Owned(trace[i].tasks[t])
    ensures d in trace[i].idle ==> c.id != d.id
    ensures u in trace[i].tasks && u != t && d in Owned(trace[i].tasks[u]) ==> c.id != d.id
  {
    hide Run;
    hide Books;
    RunSafe(limits, trace, steps, i);
    assert TaskOk(limits, trace[i], t);
    assert u in trace[i].tasks ==> PairOk(trace[i], t, u);
  }

  /** When everybody has left, every permit is back and nothing is counted as in use. */
  lemma NoPermitLost(limits: Limits, trace: seq<State>, steps: seq<Step>, i: nat)
    requires Run(limits, trace, steps) && i < |trace|
    requires forall t :: t in trace[i].tasks ==> trace[i].tasks[t].Outside?
    ensures trace[i].permits == limits.maxSize && trace[i].inUse == 0
    ensures trace[i].created == trace[i].discarded + |trace[i].idle| + trace[i].swept
  {
    hide Run;
    RunSafe(limits, trace, steps, i);
    forall role ensures Players(trace[i].tasks, role) == {} {}
  }

  /** Created minus discarded is what is idle or handed out, until a `close` takes the idle ones over. */
  lemma StatsBalance(limits: Limits, trace: seq<State>, steps: seq<Step>, i: nat)
    requires Run(limits, trace, steps) && i < |trace|
    ensures trace[i].created - trace[i].discarded == |trace[i].idle| + Count(trace[i].tasks, Handed) + trace[i].swept
    ensures !trace[i].closed ==> trace[i].swept == 0
  {
    hide Run;
    RunSafe(limits, trace, steps, i);
  }

  /** Nothing is ever put back into a closed pool. */
  lemma ClosedStaysEmpty(limits: Limits, s: State, step: Step)
    requires s.closed && s.idle == [] && Enabled(s, step)
    ensures After(limits, s, step).closed && After(limits, s, step).idle == []
  {}

  /** From the first sweep of any `close` on, the idle list is empty. */
  lemma {:induction false} SweptStaysEmpty(limits: Limits, trace: seq<State>, steps: seq<Step>, j: nat, i: nat)
    requires Run(limits, trace, steps) && j < i < |trace| && steps[j].Sweep?
    ensures trace[i].closed && trace[i].idle == []
    decreases i
  {
    hide Safe;
    if i == j + 1 {
      RunSafe(limits, trace, steps, j);
      SweepsClosed(limits, trace[j], steps[j]);
    } else {
      SweptStaysEmpty(limits, trace, steps, j, i - 1);
      ClosedStaysEmpty(limits, trace[i - 1], steps[i - 1]);
    }
  }

  lemma SweepsClosed(limits: Limits, s: State, step: Step)
    requires Safe(limits, s) && Enabled(s, step) && step.Sweep?
    ensures s.closed && After(limits, s, step).closed && After(limits, s, step).idle == []
  {
    hide Books;
    assert TaskOk(limits, s, step.task);
  }

  /** `max(0, self._in_use - 1)` never has to clamp: `_in_use` counts the tasks it should. */
  lemma InUseIsExact(limits: Limits, trace: seq<State>, steps: seq<Step>, i: nat)
    requires Run(limits, trace, steps) && i < |trace|
    ensures trace[i].inUse == Count(trace[i].tasks, Counted)
    ensures i < |steps| && (steps[i].Recover? || steps[i].PutBack?) ==> Less(trace[i].inUse) == trace[i].inUse - 1
  {
    RunSafe(limits, trace, steps, i);
    hide Safe;
    if i < |steps| && (steps[i].Recover? || steps[i].PutBack?) {
      var place := OneMoves(limits, trace[i], steps[i]);
      Moved(trace[i].tasks, steps[i].task, place, Counted);
    }
  }

  /** With `max_uses` set, nobody is handed a connection more often used than that. */
  lemma UsesBounded(limits: Limits, trace: seq<State>, steps: seq<Step>, i: nat, t: Task)
    requires Run(limits, trace, steps) && i < |trace| && limits.maxUses != 0
    requires t in trace[i].tasks && trace[i].tasks[t].Holding?
    ensures 1 <= trace[i].tasks[t].conn.uses <= limits.maxUses
  {
    hide Run;
    hide Books;
    RunSafe(limits, trace, steps, i);
    assert TaskOk(limits, trace[i], t);
    assert trace[i].tasks[t].conn in Owned(trace[i].tasks[t]);
  }

  /** A task waits only for the far end, for a caller to release, or for another task that can move. */
  ghost predicate Stuck(limits: Limits, s: State, t: Task) {
    t in s.tasks && !s.tasks[t].Outside? && !s.tasks[t].Holding?
      && forall step: Step :: step.task == t ==> !Enabled(s, step)
  }

  lemma LockOwnerMoves(limits: Limits, s: State)
    requires Owners(limits, s) && s.lock.Some? && s.running.None?
    ensures InsideLock(s.tasks[s.lock.value])
    ensures exists step: Step :: step.task == s.lock.value && Enabled(s, step)
  {
    var t := s.lock.value;
    assert TaskOk(limits, s, t);
    var step :=
      if s.tasks[t].Checking? then Check(t, false, false)
      else if s.tasks[t].Reaping? then Reaped(t)
      else Dropped(t);
    assert step.task == t && Enabled(s, step);
  }

  /** Whose turn it is at the free lock can take it. */
  lemma LocksNext(s: State, t: Task)
    requires t in s.tasks && AtLock(s.tasks[t]) && MayLock(s, t) && (s.running.None? || s.running == Some(t))
    ensures exists step: Step :: step.task == t && Enabled(s, step)
  {
    var step :=
      if s.tasks[t].Permitted? then Enter(t)
      else if s.tasks[t].Failing? then Recover(t)
      else if s.tasks[t].Returning? then PutBack(t, false)
      else Sweep(t);
    assert step.task == t && Enabled(s, step);
  }

  lemma RunnerMoves(s: State)
    requires Ordered(s) && s.running.Some?
    ensures !s.tasks[s.running.value].Outside? && !s.tasks[s.running.value].Holding?
    ensures exists step: Step :: step.task == s.running.value && Enabled(s, step)
  {
    var t := s.running.value;
    assert LineOk(s, t);
    if s.tasks[t].Checking? {
      assert Enabled(s, Check(t, false, false)) && Check(t, false, false).task == t;
    } else {
      LocksNext(s, t);
    }
  }

  lemma HeadMoves(s: State)
    requires Ordered(s) && s.queue != [] && s.lock.None? && s.running.None?
    ensures var t := s.queue[0];
            t in s.tasks && !s.tasks[t].Outside? && !s.tasks[t].Holding?
            && exists step: Step :: step.task == t && Enabled(s, step)
  {
    assert LineOk(s, s.queue[0]);
    LocksNext(s, s.queue[0]);
  }

  lemma StuckWaits(limits: Limits, s: State, t: Task)
    requires Owners(limits, s) && Ordered(s) && Stuck(limits, s, t)
    requires s.lock.None? && s.running.None? && s.queue == []
    ensures s.tasks[t].Waiting? && s.permits <= 0
  {
    assert TaskOk(limits, s, t) && LineOk(s, t);
    assert !Enabled(s, TakePermit(t)) && !Enabled(s, Connected(t)) && !Enabled(s, CloseOne(t));
  }

  /** No deadlock: if no task inside the pool can move, then those that wait do so for one of the
      `max_size` permits, and all of these are with callers who hold a connection. */
  lemma NoDeadlock(limits: Limits, trace: seq<State>, steps: seq<Step>, i: nat, t: Task)
    requires Run(limits, trace, steps) && i < |trace| && Stuck(limits, trace[i], t)
    requires forall u :: u in trace[i].tasks ==>
      trace[i].tasks[u].Outside? || trace[i].tasks[u].Holding? || Stuck(limits, trace[i], u)
    ensures trace[i].tasks[t].Waiting?
    ensures |set u | u in trace[i].tasks && trace[i].tasks[u].Holding?| == limits.maxSize
  {
    RunSafe(limits, trace, steps, i);
    hide Run;
    hide Enabled;
    var s := trace[i];
    NobodyMoves(limits, s);
    StuckWaits(limits, s, t);
    forall u | u in s.tasks && !s.tasks[u].Outside? && !s.tasks[u].Holding? ensures s.tasks[u].Waiting? {
      StuckWaits(limits, s, u);
    }
    assert Players(s.tasks, HasPermit) == set u | u in s.tasks && s.tasks[u].Holding?;
  }

  lemma NobodyMoves(limits: Limits, s: State)
    requires Owners(limits, s) && Ordered(s)
    requires forall u :: u in s.tasks ==> s.tasks[u].Outside? || s.tasks[u].Holding? || Stuck(limits, s, u)
    ensures s.lock.None? && s.running.None? && s.queue == []
  {
    hide Enabled;
    hide TaskOk;
    hide LineOk;
    if s.running.Some? {
      RunnerMoves(s);
    } else if s.lock.Some? {
      LockOwnerMoves(limits, s);
    } else if s.queue != [] {
      HeadMoves(s);
    }
  }
}
