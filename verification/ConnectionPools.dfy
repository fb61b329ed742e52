/** The pool's own code, cut at the awaits and at each `async with self._lock`: a task that finds the lock free
    and nobody waiting runs on (`running`) before anybody else moves. */
module ConnectionPools {
  import opened Pool
  import opened Wrappers

  class ConnectionPool {
    const limits: Limits
    var idle: seq<Conn>
    var inUse: int
    var closed: bool
    var permits: int
    var lock: Option<Task>
    var queue: seq<Task>
    ghost var running: Option<Task>
    var created: int
    var reused: int
    var discarded: int
    ghost var tasks: map<Task, Place>
    ghost var next: nat
    ghost var swept: nat

    ghost function Model(): State
      reads this
    {
      State(idle, inUse, closed, permits, lock, queue, running, created, reused, discarded, tasks, next, swept)
    }

    /** What every stretch relies on and keeps. */
    ghost predicate Valid()
      reads this
    {
      limits.maxSize >= 1 && Safe(limits, Model())
    }

    constructor (limits: Limits, ghost tasks: map<Task, Place>)
      requires limits.maxSize >= 1 && limits.minSize <= limits.maxSize
      requires forall t :: t in tasks ==> tasks[t].Outside?
      ensures Valid() && this.limits == limits && Fresh(limits, Model()) && this.tasks == tasks
    {
      this.limits := limits;
      idle, inUse, closed, permits := [], 0, false, limits.maxSize;
      lock, queue, running := None, [], None;
      created, reused, discarded := 0, 0, 0;
      this.tasks, next, swept := tasks, 0, 0;
      new;
      FreshIsSafe(limits, Model());
    }

    // ---------------------------------------------------------- the lock

    /** Up to the lock: run on if it is free and nobody waits, or wait at the end of the queue. */
    method Arrive(t: Task, ghost place: Place)
      modifies this
      ensures Model() == Pool.Arrive(old(Model()), t, place)
    {
      if lock.None? && queue == [] {
        running := Some(t);
      } else {
        queue := queue + [t];
        running := None;
      }
      tasks := tasks[t := place];
    }

    /** The task's turn has come: it leaves the queue if it has waited there. */
    method Served(t: Task)
      requires running == Some(t) ==> queue == []
      modifies this
      ensures Model() == Pool.Served(old(Model()), t)
    {
      if queue != [] {
        queue := queue[1..];
      }
      running := None;
    }

    // ---------------------------------------------------------- acquire

    /** Up to the wait for a permit; a closed pool raises. */
    method StartAcquire(t: Task) returns (admitted: bool)
      requires Valid() && Enabled(Model(), Step.StartAcquire(t))
      modifies this
      ensures Valid() && Model() == After(limits, old(Model()), Step.StartAcquire(t)) && admitted == !closed
    {
      hide Safe;
      SafeKept(limits, Model(), Step.StartAcquire(t));
      if closed {
        return false;
      }
      tasks := tasks[t := Waiting];
      admitted := true;
    }

    method TakePermit(t: Task)
      requires Valid() && Enabled(Model(), Step.TakePermit(t))
      modifies this
      ensures Valid() && Model() == After(limits, old(Model()), Step.TakePermit(t))
    {
      hide Safe;
      SafeKept(limits, Model(), Step.TakePermit(t));
      permits := permits - 1;
      Arrive(t, Permitted);
    }

    method Enter(t: Task)
      requires Valid() && Enabled(Model(), Step.Enter(t))
      modifies this
      ensures Valid() && Model() == After(limits, old(Model()), Step.Enter(t))
    {
      hide Safe;
      hide Expired;
      SafeKept(limits, Model(), Step.Enter(t));
      RunnerFindsNoQueue(limits, Model(), t);
      Served(t);
      lock := Some(t);
      running := Some(t);
      tasks := tasks[t := Checking];
    }

    /** One turn of the loop: hand out the last idle connection, give it up, or leave the lock to connect. */
    method Check(t: Task, dead: bool, stale: bool) returns (handed: Option<Conn>)
      requires Valid() && Enabled(Model(), Step.Check(t, dead, stale))
      modifies this
      ensures Valid() && Model() == After(limits, old(Model()), Step.Check(t, dead, stale))
      ensures HandsOut(limits, old(idle), dead, stale, handed)
      ensures handed.Some? ==> tasks[t] == Holding(handed.value)
    {
      hide Safe;
      hide Pool.Arrive;
      hide Pool.Served;
      hide MayLock;
      SafeKept(limits, Model(), Step.Check(t, dead, stale));
      hide Enabled;
      handed := None;
      if |idle| > 0 {
        var candidate := idle[|idle| - 1];
        idle := idle[..|idle| - 1];
        running := None;
        if Expired(limits, candidate, |idle|, dead, stale) {
          discarded := discarded + 1;
          tasks := tasks[t := Reaping(candidate)];
          return;
        }
        inUse := inUse + 1;
        reused := reused + 1;
        candidate := candidate.(uses := candidate.uses + 1);
        lock := None;
        tasks := tasks[t := Holding(candidate)];
        return Some(candidate);
      }
      inUse := inUse + 1;
      lock := None;
      running := None;
      tasks := tasks[t := Connecting];
    }

    method Reaped(t: Task)
      requires Valid() && Enabled(Model(), Step.Reaped(t))
      modifies this
      ensures Valid() && Model() == After(limits, old(Model()), Step.Reaped(t))
    {
      hide Safe;
      SafeKept(limits, Model(), Step.Reaped(t));
      running := Some(t);
      tasks := tasks[t := Checking];
    }

    method Connected(t: Task, id: nat) returns (handed: Conn)
      requires Valid() && Enabled(Model(), Step.Connected(t)) && id == next
      modifies this
      ensures Valid() && Model() == After(limits, old(Model()), Step.Connected(t)) && tasks[t] == Holding(handed)
    {
      hide Safe;
      SafeKept(limits, Model(), Step.Connected(t));
      handed := Conn(id, 1);
      created := created + 1;
      next := next + 1;
      tasks := tasks[t := Holding(handed)];
    }

    method ConnectFails(t: Task)
      requires Valid() && Enabled(Model(), Step.ConnectFails(t))
      modifies this
      ensures Valid() && Model() == After(limits, old(Model()), Step.ConnectFails(t))
    {
      hide Safe;
      SafeKept(limits, Model(), Step.ConnectFails(t));
      Arrive(t, Failing);
    }

    method Recover(t: Task)
      requires Valid() && Enabled(Model(), Step.Recover(t))
      modifies this
      ensures Valid() && Model() == After(limits, old(Model()), Step.Recover(t))
    {
      hide Safe;
      hide Expired;
      SafeKept(limits, Model(), Step.Recover(t));
      RunnerFindsNoQueue(limits, Model(), t);
      Served(t);
      inUse := if inUse - 1 > 0 then inUse - 1 else 0;
      permits := permits + 1;
      tasks := tasks[t := Outside];
    }

    // ---------------------------------------------------------- release

    method StartRelease(t: Task, connection: Conn, reuse: bool)
      requires Valid() && Enabled(Model(), Step.StartRelease(t, reuse)) && tasks[t] == Holding(connection)
      modifies this
      ensures Valid() && Model() == After(limits, old(Model()), Step.StartRelease(t, reuse))
    {
      hide Safe;
      SafeKept(limits, Model(), Step.StartRelease(t, reuse));
      Arrive(t, Returning(connection, reuse));
    }

    /** Inside the lock: back to the idle list, or give it up; `dropped` says that it must be closed. */
    method PutBack(t: Task, connection: Conn, reuse: bool, dead: bool) returns (dropped: bool)
      requires Valid() && Enabled(Model(), Step.PutBack(t, dead)) && tasks[t] == Returning(connection, reuse)
      modifies this
      ensures Valid() && Model() == After(limits, old(Model()), Step.PutBack(t, dead))
      ensures dropped <==> tasks[t] == Dropping(connection)
      ensures dropped <==> !reuse || closed || dead
      ensures idle == if dropped then old(idle) else old(idle) + [connection]
    {
      hide Safe;
      hide Expired;
      SafeKept(limits, Model(), Step.PutBack(t, dead));
      RunnerFindsNoQueue(limits, Model(), t);
      Served(t);
      inUse := if inUse - 1 > 0 then inUse - 1 else 0;
      if reuse && !closed && !dead {
        idle := idle + [connection];
        permits := permits + 1;
        tasks := tasks[t := Outside];
        return false;
      }
      discarded := discarded + 1;
      lock := Some(t);
      tasks := tasks[t := Dropping(connection)];
      dropped := true;
    }

    method Dropped(t: Task)
      requires Valid() && Enabled(Model(), Step.Dropped(t))
      modifies this
      ensures Valid() && Model() == After(limits, old(Model()), Step.Dropped(t))
    {
      hide Safe;
      SafeKept(limits, Model(), Step.Dropped(t));
      lock := None;
      permits := permits + 1;
      tasks := tasks[t := Outside];
    }

    // ---------------------------------------------------------- close

    method StartClose(t: Task)
      requires Valid() && Enabled(Model(), Step.StartClose(t))
      modifies this
      ensures Valid() && Model() == After(limits, old(Model()), Step.StartClose(t))
    {
      hide Safe;
      SafeKept(limits, Model(), Step.StartClose(t));
      closed := true;
      Arrive(t, Closing);
    }

    method Sweep(t: Task) returns (conns: seq<Conn>)
      requires Valid() && Enabled(Model(), Step.Sweep(t))
      modifies this
      ensures Valid() && Model() == After(limits, old(Model()), Step.Sweep(t)) && conns == old(idle)
    {
      hide Safe;
      hide Expired;
      SafeKept(limits, Model(), Step.Sweep(t));
      RunnerFindsNoQueue(limits, Model(), t);
      Served(t);
      conns := idle;
      idle := [];
      swept := swept + |conns|;
      tasks := tasks[t := Sweeping(conns)];
    }

    method CloseOne(t: Task)
      requires Valid() && Enabled(Model(), Step.CloseOne(t))
      modifies this
      ensures Valid() && Model() == After(limits, old(Model()), Step.CloseOne(t))
    {
      hide Safe;
      SafeKept(limits, Model(), Step.CloseOne(t));
      ghost var conns := tasks[t].conns;
      tasks := tasks[t := if conns == [] then Outside else Sweeping(conns[1..])];
    }
  }

  /** The last idle connection is handed out, and one more use is counted, unless it is dead; or has been handed out
      as often as it may be; or has been idle for too long while more than the least number are. */
  ghost predicate HandsOut(limits: Limits, idle: seq<Conn>, dead: bool, stale: bool, handed: Option<Conn>) {
    if idle == [] then handed.None?
    else
      var last := idle[|idle| - 1];
      if dead || 0 < limits.maxUses <= last.uses || (stale && limits.minSize + 1 < |idle|) then handed.None?
      else handed == Some(last.(uses := last.uses + 1))
  }

  lemma RunnerFindsNoQueue(limits: Limits, s: State, t: Task)
    requires Safe(limits, s) && t in s.tasks && AtLock(s.tasks[t])
    ensures s.running == Some(t) ==> s.queue == []
  {
    hide Books;
    hide Owners;
    assert LineOk(s, t);
  }
}
