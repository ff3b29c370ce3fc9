/**
What fork, exit, wait and kill come to, in any run of the machine of WaitExit: how each call ends, and what it
leaves behind.
*/
module WaitOutcomes {
  import opened Procs
  import opened Wrappers
  import opened WaitExit

  /** What holds in every reachable state: as Inv, and a process not yet RUNNABLE is being made by some fork. */
  ghost predicate Reached(s: State) {
    Inv(s) && forall np :: 0 <= np < |s.procs| && s.procs[np].state.USED? ==> Made(s, np)
  }

  ghost predicate Made(s: State, np: Pid) {
    exists p :: 0 <= p < |s.procs| && Forks(s.procs[p].pc, np)
  }

  /** The forking process goes on with np, or is done with it. */
  lemma MakerMoves(s: State, e: Event, s': State, np: Pid)
    requires Bounds(s) && Next(s, e) == Some(s') && |s'.procs| == |s.procs| && np < |s.procs|
    requires Forks(s.procs[e.p].pc, np) && ForkFits(s, e.p, np) && StateFits(s.procs[e.p], e.p)
    ensures Forks(s'.procs[e.p].pc, np) || !s'.procs[np].state.USED?
  {
  }

  /** While another process moves. */
  lemma MakerStays(s: State, e: Event, s': State, p: Pid, np: Pid)
    requires Bounds(s) && Next(s, e) == Some(s') && |s'.procs| == |s.procs| && p < |s.procs| && p != e.p
    requires Forks(s.procs[p].pc, np) && StateFits(s.procs[p], p)
    requires Moved(e.p, s.procs[e.p], p, s.procs[p], s'.procs[p], s.waitLock)
    ensures Forks(s'.procs[p].pc, np)
  {
    hide Next;
  }

  lemma NewlyUsed(s: State, e: Event, s': State, np: Pid)
    requires Bounds(s) && Next(s, e) == Some(s') && |s'.procs| == |s.procs| && np < |s.procs|
    requires !s.procs[np].state.USED? && s'.procs[np].state.USED?
    requires np != e.p ==> Moved(e.p, s.procs[e.p], np, s.procs[np], s'.procs[np], s.waitLock)
    requires np == e.p ==> MovedItself(np, s.procs[np], s'.procs[np])
    ensures Forks(s'.procs[e.p].pc, np)
  {
  }

  lemma MadeKept(s: State, e: Event, s': State, np: Pid)
    requires Reached(s) && Next(s, e) == Some(s') && np < |s.procs| == |s'.procs| && s'.procs[np].state.USED?
    ensures Made(s', np)
  {
    hide Inv, Next, Moved, MovedItself, ForkFits, ForkApart, OrphanedAt, ScannedAt, ToldAt, NotMissedAt, StateFits,
         LockOwned, ParentLives, Forks, Bounds;
    Basics(s);
    Moves(s, e, s', np);
    if s.procs[np].state.USED? {
      var p :| 0 <= p < |s.procs| && Forks(s.procs[p].pc, np);
      At(s, p, np);
      Moves(s, e, s', p);
      if p == e.p { MakerMoves(s, e, s', np); } else { MakerStays(s, e, s', p, np); }
    } else {
      NewlyUsed(s, e, s', np);
    }
  }

  /** In every run, a process is USED only while some process is in the middle of forking it. */
  lemma {:induction false} RunReached(s: State, es: seq<Event>)
    requires Initial(s)
    ensures Bounds(s) && (Exec(s, es).Some? ==> Reached(Exec(s, es).value))
    decreases |es|
  {
    hide Inv, Next, Made, Bounds;
    RunInv(s, es);
    if es != [] && Exec(s, es).Some? {
      var front, e := es[..|es| - 1], es[|es| - 1];
      RunReached(s, front);
      var t, u := Exec(s, front).value, Exec(s, es).value;
      Basics(t);
      BoundsKept(t, e, u);
      forall np | 0 <= np < |u.procs| && u.procs[np].state.USED? ensures Made(u, np) { MadeKept(t, e, u, np); }
    }
  }

  lemma OnlyWhileForked(s: State, es: seq<Event>, np: Pid)
    requires Initial(s) && Bounds(s) && Exec(s, es).Some? && np < |Exec(s, es).value.procs|
    ensures Exec(s, es).value.procs[np].state.USED? <==> Made(Exec(s, es).value, np)
  {
    hide Inv, Initial, Exec, Bounds, Forks, ForkApart, OrphanedAt, ScannedAt, ToldAt, NotMissedAt, StateFits;
    var t := Exec(s, es).value;
    RunReached(s, es);
    if Made(t, np) {
      var p :| 0 <= p < |t.procs| && Forks(t.procs[p].pc, np);
      At(t, p, np);
    }
  }

  // ---- how calls end ----

  /**
  fork ends in one of two ways: its memory did not suffice and the child's slot is free again, or the child
  is RUNNABLE, with the caller as its parent and its lock free, so that the scheduler may run it at once.
  */
  lemma ForkEnds(s: State, es: seq<Event>, e: Event)
    requires Initial(s) && Bounds(s) && Exec(s, es).Some? && Bounds(Exec(s, es).value)
    requires Next(Exec(s, es).value, e).Some? && InFork(Exec(s, es).value.procs[e.p].pc)
    requires var u := Next(Exec(s, es).value, e).value; e.p < |u.procs| && !InFork(u.procs[e.p].pc)
    ensures var t, u := Exec(s, es).value, Next(Exec(s, es).value, e).value; var np := t.procs[e.p].pc.np;
      && np < |u.procs| && np != e.p && u.procs[e.p].pc.User? && Bounds(u)
      && if e.ForkFail? then u.procs[np].state.UNUSED? && u.procs[np].parent.None? && u.procs[np].lock.None?
         else u.procs[np].state.RUNNABLE? && u.procs[np].parent == Some(e.p) && Next(u, Dispatch(np)).Some?
  {
    hide Inv, Initial, Exec, ForkApart, OrphanedAt, ScannedAt, ToldAt, NotMissedAt, StateFits;
    var t := Exec(s, es).value;
    RunInv(s, es);
    BoundsAt(t, e.p);
    BoundsKept(t, e, Next(t, e).value);
    At(t, e.p, t.procs[e.p].pc.np);
    At(t, e.p, e.p);
  }

  /** exit ends with a zombie off its stack, its lock free, and no process left that calls it its parent. */
  lemma ExitEnds(s: State, es: seq<Event>, e: Event, q: Pid)
    requires Initial(s) && Bounds(s) && Exec(s, es).Some? && Bounds(Exec(s, es).value)
    requires Next(Exec(s, es).value, e).Some? && Exiting(Exec(s, es).value.procs[e.p].pc)
    requires var u := Next(Exec(s, es).value, e).value;
             e.p < |u.procs| && q < |u.procs| && u.procs[e.p].pc.Gone? && !Exec(s, es).value.procs[e.p].pc.Gone?
    ensures var u := Next(Exec(s, es).value, e).value;
            u.procs[e.p].state.ZOMBIE? && u.procs[e.p].lock.None? && u.procs[q].parent != Some(e.p)
  {
    hide Inv, Initial, Exec, ForkApart, ScannedAt, ToldAt, NotMissedAt, ForkFits;
    var t, u := Exec(s, es).value, Next(Exec(s, es).value, e).value;
    RunInv(s, es);
    BoundsKept(t, e, u);
    At(t, e.p, e.p);
    GoneFrom(t, e, u);
    ExecOne(s, es, e);
    RunInv(s, es + [e]);
    At(u, q, q);
    At(u, e.p, e.p);
  }

  lemma GoneFrom(t: State, e: Event, u: State)
    requires Bounds(t) && Next(t, e) == Some(u) && e.p < |t.procs| == |u.procs| && StateFits(t.procs[e.p], e.p)
    requires Exiting(t.procs[e.p].pc) && !t.procs[e.p].pc.Gone? && u.procs[e.p].pc.Gone?
    ensures u.procs[e.p].state.ZOMBIE? && u.procs[e.p].lock.None?
  {
    hide ForkStep, WaitStep;
  }

  lemma ExecOne(s: State, es: seq<Event>, e: Event)
    requires Bounds(s) && Exec(s, es).Some? && Bounds(Exec(s, es).value)
    ensures Exec(s, es + [e]) == Next(Exec(s, es).value, e)
  {
    hide Next, Bounds;
    assert (es + [e])[..|es|] == es;
  }

  predicate InWait(pc: Pc) {
    pc.WaitStart? || pc.WaitScan? || pc.WaitDecide? || pc.WaitTakeP? || pc.WaitDropLk? || pc.WaitMark? ||
        pc.WaitAsleep? || pc.WaitWoken?
  }

  /** The child wait has come to is a zombie, and gone from its stack. */
  predicate Reaps(t: State, p: Pid, u: State) {
    && p < |t.procs| && t.procs[p].pc.WaitScan? && t.procs[p].pc.i < |t.procs| == |u.procs|
    && var i := t.procs[p].pc.i;
       && i != p && t.procs[i].state.ZOMBIE? && t.procs[i].parent == Some(p) && t.procs[i].pc.Gone?
       && u.procs[i].state.UNUSED? && u.procs[i].parent.None? && u.procs[i].chan.None? && !u.procs[i].killed
       && u.procs[i].lock.None?
  }

  /**
  wait ends in one of three ways: a zombie child is freed; its status could not be copied out, and it stays; or
  the caller has no child, or has been killed. wait_lock is free in any case.
  */
  lemma WaitEnds(s: State, es: seq<Event>, e: Event)
    requires Initial(s) && Bounds(s) && Exec(s, es).Some? && Bounds(Exec(s, es).value)
    requires Next(Exec(s, es).value, e).Some? && InWait(Exec(s, es).value.procs[e.p].pc)
    requires var u := Next(Exec(s, es).value, e).value; e.p < |u.procs| && !InWait(u.procs[e.p].pc)
    ensures var t, u := Exec(s, es).value, Next(Exec(s, es).value, e).value;
      && u.procs[e.p].pc.User? && u.waitLock.None? && |u.procs| == |t.procs|
      && (|| Reaps(t, e.p, u)
          || (e.WaitFail? && u.procs[e.p := t.procs[e.p]] == t.procs)
          || (t.procs[e.p].pc.WaitDecide? && u.procs[e.p := t.procs[e.p]] == t.procs &&
                (t.procs[e.p].killed || forall q :: 0 <= q < |t.procs| ==> t.procs[q].parent != Some(e.p))))
  {
    hide Inv, Initial, Exec, ForkApart, OrphanedAt, ToldAt, NotMissedAt, ForkFits, ScannedAt;
    var t, u := Exec(s, es).value, Next(Exec(s, es).value, e).value;
    RunInv(s, es);
    BoundsKept(t, e, u);
    BoundsAt(t, e.p);
    At(t, e.p, e.p);
    if t.procs[e.p].pc.WaitScan? && t.procs[e.p].pc.i < |t.procs| { At(t, t.procs[e.p].pc.i, e.p); }
    if t.procs[e.p].pc == WaitDecide(false) {
      forall q | 0 <= q < |t.procs| ensures t.procs[q].parent != Some(e.p) { NoKids(t, e.p, q); }
    }
    WaitLeaves(t, e, u);
  }

  lemma NoKids(t: State, p: Pid, q: Pid)
    requires Inv(t) && p < |t.procs| && q < |t.procs| && t.procs[p].pc == WaitDecide(false)
    ensures t.procs[q].parent != Some(p)
  {
    hide Inv, StateFits, LockOwned, ForkFits, ForkApart, OrphanedAt, ToldAt, NotMissedAt, ParentLives;
    At(t, p, q);
  }

  lemma WaitLeaves(t: State, e: Event, u: State)
    requires Bounds(t) && Next(t, e) == Some(u) && e.p < |t.procs| == |u.procs| && InWait(t.procs[e.p].pc)
    requires !InWait(u.procs[e.p].pc) && StateFits(t.procs[e.p], e.p) && ParentLives(t, e.p)
    requires t.waitLock == Some(e.p) <==> HoldsWait(t.procs[e.p].pc)
    requires var pc := t.procs[e.p].pc;
             pc.WaitScan? && pc.i < |t.procs| ==>
               LockOwned(t, pc.i) && StateFits(t.procs[pc.i], pc.i) && ParentLives(t, pc.i)
    ensures u.procs[e.p].pc.User? && u.waitLock.None?
    ensures || Reaps(t, e.p, u)
            || (e.WaitFail? && u.procs[e.p := t.procs[e.p]] == t.procs)
            || (t.procs[e.p].pc.WaitDecide? && u.procs[e.p := t.procs[e.p]] == t.procs &&
                  (t.procs[e.p].killed || !t.procs[e.p].pc.kids))
  {
  }

  // ---- nobody waits for nothing ----

  predicate CanRun(s: State, p: Pid)
    requires Bounds(s)
  {
    p < |s.procs| && Next(s, Run(p)).Some?
  }

  /** The process that has the lock p spins for. */
  function Blocker(s: State, p: Pid): Option<Pid>
    requires p < |s.procs| && Bounds(s)
  {
    match s.procs[p].pc
    case ForkParent(_) => s.waitLock
    case ExitStart => s.waitLock
    case WaitStart => s.waitLock
    case ForkRun(np) => s.procs[np].lock
    case WakeInit(_, j) => if j < |s.procs| && j != p then s.procs[j].lock else None
    case WakeParent(j) => if j < |s.procs| && j != p then s.procs[j].lock else None
    case WaitScan(i, _) => if i < |s.procs| && s.procs[i].parent == Some(p) then s.procs[i].lock else None
    case BecomeZombie => s.procs[p].lock
    case WaitTakeP => s.procs[p].lock
    case _ => None
  }

  /** Inside fork, exit or wait, and on a CPU. */
  predicate AtWork(q: Proc) {
    OnCpu(q) && (InFork(q.pc) || (Exiting(q.pc) && !q.pc.Gone?) || InWait(q.pc))
  }

  lemma UnblockedRuns(s: State, p: Pid)
    requires Bounds(s) && p < |s.procs| && AtWork(s.procs[p]) && StateFits(s.procs[p], p) && Blocker(s, p).None?
    ensures CanRun(s, p)
  {
  }

  /** The holder of a p->lock is at work, and spins for nothing. */
  predicate LockHolder(pc: Pc) {
    HoldsOwn(pc) || pc.ForkCopy?
  }

  lemma LockHolderIs(s: State, j: Pid)
    requires Inv(s) && j < |s.procs| && s.procs[j].lock.Some?
    ensures var q := s.procs[j].lock.value; q < |s.procs| && LockHolder(s.procs[q].pc) && AtWork(s.procs[q])
  {
    hide Inv, ForkFits, ForkApart, OrphanedAt, ScannedAt, ToldAt, NotMissedAt, ParentLives, ParentKnown;
    At(s, j, j);
    At(s, s.procs[j].lock.value, j);
  }

  lemma LockHolderRuns(s: State, q: Pid)
    requires Inv(s) && Bounds(s) && q < |s.procs| && LockHolder(s.procs[q].pc) && AtWork(s.procs[q])
    ensures CanRun(s, q)
  {
    hide Inv, ForkFits, ForkApart, OrphanedAt, ScannedAt, ToldAt, NotMissedAt, ParentLives, ParentKnown, LockOwned,
         AtWork, Next;
    At(s, q, q);
    UnblockedRuns(s, q);
  }

  lemma WaitHolderIs(s: State)
    requires Inv(s) && s.waitLock.Some?
    ensures var q := s.waitLock.value; q < |s.procs| && HoldsWait(s.procs[q].pc) && AtWork(s.procs[q])
  {
    hide LocksOwned, ForksFit, ForksApart, Orphaned, Scanned, ParentsLive, ParentsKnown, StateFits;
    At(s, s.waitLock.value, s.waitLock.value);
    WaitHolderWorks(s.procs[s.waitLock.value], s.waitLock.value);
  }

  lemma WaitHolderWorks(q: Proc, p: Pid)
    requires HoldsWait(q.pc) && StateFits(q, p)
    ensures AtWork(q)
  {
  }

  /** Whom p's waiting comes down to: p itself, the holder of the lock it spins for, or whom that one spins for. */
  function Behind(s: State, p: Pid): Pid
    requires p < |s.procs| && Bounds(s)
  {
    match Blocker(s, p)
    case None => p
    case Some(q) =>
      if q >= |s.procs| then p
      else
        match Blocker(s, q)
        case None => q
        case Some(r) => r
  }

  lemma WaitersBlocker(s: State, p: Pid)
    requires Bounds(s) && p < |s.procs| && Blocker(s, p).Some?
    ensures Blocker(s, p) == s.waitLock || exists j: Pid :: j < |s.procs| && Blocker(s, p) == s.procs[j].lock
    ensures HoldsWait(s.procs[p].pc) ==> exists j: Pid :: j < |s.procs| && Blocker(s, p) == s.procs[j].lock
    ensures !LockHolder(s.procs[p].pc)
  {
    match s.procs[p].pc
    case ForkRun(np) => assert np < |s.procs|;
    case WakeInit(_, j) => assert j < |s.procs|;
    case WakeParent(j) => assert j < |s.procs|;
    case WaitScan(i, _) => assert i < |s.procs|;
    case _ =>
  }

  /** A holder of wait_lock is kept only by the holder of a p->lock. */
  lemma HolderGoesOn(s: State, q: Pid)
    requires Inv(s) && Bounds(s) && q < |s.procs| && HoldsWait(s.procs[q].pc) && AtWork(s.procs[q])
    ensures if Blocker(s, q).None? then CanRun(s, q) else CanRun(s, Blocker(s, q).value)
  {
    hide Inv, Blocker, AtWork, LockHolder, HoldsWait, CanRun, ForkFits, ForkApart, OrphanedAt, ScannedAt, ToldAt,
         NotMissedAt, ParentLives, ParentKnown, LockOwned, StateFits, Next;
    At(s, q, q);
    if Blocker(s, q).None? {
      UnblockedRuns(s, q);
    } else {
      WaitersBlocker(s, q);
      var j: Pid :| j < |s.procs| && Blocker(s, q) == s.procs[j].lock;
      LockHolderIs(s, j);
      LockHolderRuns(s, Blocker(s, q).value);
    }
  }

  /**
  No deadlock on wait_lock and the p->locks: behind every process on a CPU inside fork, exit or wait there is one
  that can make a step.
  */
  lemma NoDeadlock(s0: State, es: seq<Event>, p: Pid)
    requires Bounds(s0) && Initial(s0) && Exec(s0, es).Some? && p < |Exec(s0, es).value.procs|
    requires AtWork(Exec(s0, es).value.procs[p])
    ensures var s := Exec(s0, es).value; Bounds(s) && CanRun(s, Behind(s, p))
  {
    hide Inv, Initial, Exec, Blocker, AtWork, LockHolder, HoldsWait, CanRun, Next, StateFits, ForkFits, ForkApart,
         OrphanedAt, ScannedAt, ToldAt, NotMissedAt, ParentLives, ParentKnown, LockOwned;
    RunInv(s0, es);
    var s := Exec(s0, es).value;
    Basics(s);
    At(s, p, p);
    if Blocker(s, p).None? {
      UnblockedRuns(s, p);
    } else {
      WaitersBlocker(s, p);
      var q := Blocker(s, p).value;
      if Blocker(s, p) == s.waitLock {
        WaitHolderIs(s);
        HolderGoesOn(s, q);
      } else {
        var j: Pid :| j < |s.procs| && Blocker(s, p) == s.procs[j].lock;
        LockHolderIs(s, j);
        LockHolderRuns(s, q);
        if Blocker(s, q).Some? { WaitersBlocker(s, q); }
      }
    }
  }

  /** The scheduler can run whoever is RUNNABLE. */
  lemma RunnableRuns(s0: State, es: seq<Event>, p: Pid)
    requires Bounds(s0) && Initial(s0) && Exec(s0, es).Some? && p < |Exec(s0, es).value.procs|
    requires Exec(s0, es).value.procs[p].state.RUNNABLE?
    ensures var s := Exec(s0, es).value; Bounds(s) && Next(s, Dispatch(p)).Some?
  {
    hide Inv, Initial, Exec, ForkApart, OrphanedAt, ScannedAt, ToldAt, NotMissedAt, ParentLives, ParentKnown, ForkFits;
    RunInv(s0, es);
    var s := Exec(s0, es).value;
    Basics(s);
    At(s, p, p);
  }

  /** A process in user code can make any of its calls (init does not exit), and fork has every unused slot to take. */
  lemma UserCalls(s0: State, es: seq<Event>, p: Pid, np: Pid)
    requires Bounds(s0) && Initial(s0) && Exec(s0, es).Some? && p < |Exec(s0, es).value.procs|
    requires np < |Exec(s0, es).value.procs|
    requires var me := Exec(s0, es).value.procs[p]; me.state.RUNNING? && me.pc.User?
    ensures var s := Exec(s0, es).value;
      && Bounds(s)
      && (Next(s, Fork(p, np)).Some? <==> s.procs[np].state.UNUSED?)
      && (Next(s, Exit(p)).Some? <==> p != INIT)
      && Next(s, Wait(p)).Some? && Next(s, Block(p)).Some? && Next(s, Yield(p)).Some?
  {
    hide Inv, Initial, Exec, ForkApart, OrphanedAt, ScannedAt, ToldAt, NotMissedAt, ParentLives, ParentKnown, ForkFits;
    RunInv(s0, es);
    Basics(Exec(s0, es).value);
    At(Exec(s0, es).value, p, p);
    At(Exec(s0, es).value, np, np);
  }

  /** Whoever is asleep can be killed, and outside of wait can be woken. */
  lemma SleeperWakes(s0: State, es: seq<Event>, p: Pid)
    requires Bounds(s0) && Initial(s0) && Exec(s0, es).Some? && p < |Exec(s0, es).value.procs|
    requires Exec(s0, es).value.procs[p].state.SLEEPING?
    ensures var s := Exec(s0, es).value;
            Bounds(s) && Next(s, Kill(p)).Some? && (Next(s, Unblock(p)).Some? <==> !s.procs[p].pc.WaitAsleep?)
  {
    hide Inv, Initial, Exec, ForkApart, OrphanedAt, ScannedAt, ToldAt, NotMissedAt, ParentLives, ParentKnown, ForkFits;
    RunInv(s0, es);
    Basics(Exec(s0, es).value);
    At(Exec(s0, es).value, p, p);
  }

  // ---- kill ----

  /** Whoever is asleep is woken, and nothing else is done to the process but to mark it. */
  lemma KillWakes(s: State, es: seq<Event>, p: Pid)
    requires Initial(s) && Bounds(s) && Exec(s, es).Some? && Bounds(Exec(s, es).value)
    requires Next(Exec(s, es).value, Kill(p)).Some?
    ensures var t, u := Exec(s, es).value, Next(Exec(s, es).value, Kill(p)).value;
      && p < |t.procs| == |u.procs| && u.procs[p].killed && !u.procs[p].state.SLEEPING?
      && (t.procs[p].state.SLEEPING? ==> Bounds(u) && Next(u, Dispatch(p)).Some?)
      && (!t.procs[p].state.SLEEPING? ==> u.procs[p].state == t.procs[p].state)
      && u == t.(procs := t.procs[p := u.procs[p]]) && u.procs[p].pc == t.procs[p].pc
  {
    hide Inv, Initial, Exec, ForkApart, OrphanedAt, ScannedAt, ToldAt, NotMissedAt, ForkFits;
    var t := Exec(s, es).value;
    RunInv(s, es);
    BoundsKept(t, Kill(p), Next(t, Kill(p)).value);
    At(t, p, p);
  }

  /** Asleep in wait, or on the way there past the test of killed(p). */
  predicate Committed(q: Proc) {
    q.pc.WaitTakeP? || q.pc.WaitDropLk? || q.pc.WaitMark? || (q.pc.WaitAsleep? && q.state.SLEEPING?)
  }

  /** A kill has come between the test and sleep's taking of p->lock, and the process has not run since its sleep. */
  ghost predicate LateKill(s0: State, es: seq<Event>, p: Pid)
    requires Bounds(s0)
  {
    exists k :: 0 <= k < |es| && LateAt(s0, es, p, k)
  }

  ghost predicate LateAt(s0: State, es: seq<Event>, p: Pid, k: nat)
    requires Bounds(s0) && k < |es|
  {
    es[k] == Kill(p) && AboutToSleep(Exec(s0, es[..k]), p) && forall j :: k < j < |es| ==> es[j] != Dispatch(p)
  }

  predicate AboutToSleep(s: Option<State>, p: Pid) {
    s.Some? && p < |s.value.procs| && s.value.procs[p].pc.WaitTakeP?
  }

  lemma LateMore(s0: State, es: seq<Event>, p: Pid)
    requires Bounds(s0) && es != []
    ensures var front, e := es[..|es| - 1], es[|es| - 1];
            LateKill(s0, es, p) <==>
            (e == Kill(p) && AboutToSleep(Exec(s0, front), p)) || (LateKill(s0, front, p) && e != Dispatch(p))
  {
    hide Exec, AboutToSleep;
    var n := |es| - 1;
    var front, e := es[..n], es[n];
    if LateKill(s0, es, p) {
      var k :| 0 <= k < |es| && LateAt(s0, es, p, k);
      if k < n {
        assert front[..k] == es[..k];
        assert LateAt(s0, front, p, k);
      }
    }
    if LateKill(s0, front, p) && e != Dispatch(p) {
      var k :| 0 <= k < n && LateAt(s0, front, p, k);
      assert front[..k] == es[..k];
      assert LateAt(s0, es, p, k);
    }
    if e == Kill(p) && AboutToSleep(Exec(s0, front), p) { assert LateAt(s0, es, p, n); }
  }

  predicate OnTheWay(q: Proc) {
    q.pc.WaitTakeP? || q.pc.WaitDropLk? || q.pc.WaitMark? || q.pc.WaitAsleep?
  }

  /** late: a late kill of this process has happened, and it has not run since its sleep. */
  predicate LateFits(q: Proc, late: bool) {
    (late ==> OnTheWay(q) && q.killed) && (Committed(q) && q.killed ==> late)
  }

  lemma LateMine(s: State, e: Event, s': State, late: bool)
    requires Bounds(s) && Next(s, e) == Some(s') && |s'.procs| == |s.procs| && LateFits(s.procs[e.p], late)
    requires StateFits(s.procs[e.p], e.p) && LockOwned(s, e.p) && ForkFits(s, e.p, e.p) && ParentLives(s, e.p)
    ensures LateFits(s'.procs[e.p], (e.Kill? && s.procs[e.p].pc.WaitTakeP?) || (late && !e.Dispatch?))
  {
    if e.Run? {
      if InFork(s.procs[e.p].pc) { LateInFork(s, e.p, s', late); }
      else if Exiting(s.procs[e.p].pc) { LateInExit(s, e.p, s', late); }
      else { LateInWait(s, e.p, s', late); }
    } else {
      LateElse(s, e, s', late);
    }
  }

  lemma LateElse(s: State, e: Event, s': State, late: bool)
    requires Bounds(s) && Next(s, e) == Some(s') && |s'.procs| == |s.procs| && LateFits(s.procs[e.p], late) && !e.Run?
    requires StateFits(s.procs[e.p], e.p) && LockOwned(s, e.p) && ForkFits(s, e.p, e.p)
    ensures LateFits(s'.procs[e.p], (e.Kill? && s.procs[e.p].pc.WaitTakeP?) || (late && !e.Dispatch?))
  {
  }

  lemma LateInFork(s: State, p: Pid, s': State, late: bool)
    requires Bounds(s) && p < |s.procs| == |s'.procs| && ForkStep(s, p) == Some(s') && LateFits(s.procs[p], late)
    requires ForkFits(s, p, p) && OnCpu(s.procs[p]) && BoundsOf(s, p)
    ensures LateFits(s'.procs[p], late)
  {
    hide Bounds;
  }

  lemma LateInExit(s: State, p: Pid, s': State, late: bool)
    requires Bounds(s) && p < |s.procs| == |s'.procs| && ExitStep(s, p) == Some(s') && LateFits(s.procs[p], late)
    requires OnCpu(s.procs[p]) && ParentLives(s, p) && BoundsOf(s, p)
    ensures LateFits(s'.procs[p], late)
  {
    hide Bounds;
  }

  lemma LateInWait(s: State, p: Pid, s': State, late: bool)
    requires Bounds(s) && p < |s.procs| == |s'.procs| && WaitStep(s, p) == Some(s') && LateFits(s.procs[p], late)
    requires OnCpu(s.procs[p]) && StateFits(s.procs[p], p) && ParentLives(s, p) && BoundsOf(s, p)
    ensures LateFits(s'.procs[p], late)
  {
    hide Bounds;
  }

  predicate BoundsOf(s: State, p: Pid)
    requires p < |s.procs|
  {
    PcBounds(s.procs[p].pc, |s.procs|)
  }

  lemma LateOther(me: Proc, was: Proc, now: Proc, a: Pid, p: Pid, waitLock: Option<Pid>, late: bool)
    requires Moved(a, me, p, was, now, waitLock) && StateFits(was, p) && LateFits(was, late)
    requires Forks(me.pc, p) ==> was.state.USED?
    ensures LateFits(now, late)
  {
  }

  lemma {:induction false} LateInv(s0: State, es: seq<Event>, p: Pid)
    requires Bounds(s0) && Initial(s0) && Exec(s0, es).Some? && p < |Exec(s0, es).value.procs|
    ensures LateFits(Exec(s0, es).value.procs[p], LateKill(s0, es, p))
    decreases |es|
  {
    hide Next, Inv, Bounds, MovedItself, Moved, Wakes, LateKill, ForkFits, ForkApart, OrphanedAt, ScannedAt, ToldAt,
         NotMissedAt, ParentLives, StateFits, LockOwned, LateFits;
    if es == [] {
      NothingLate(s0, p);
    } else {
      var front, e := es[..|es| - 1], es[|es| - 1];
      var s, s' := Exec(s0, front).value, Exec(s0, es).value;
      RunInv(s0, front);
      Basics(s);
      BoundsKept(s, e, s');
      LateInv(s0, front, p);
      At(s, e.p, p);
      At(s, e.p, e.p);
      At(s, p, p);
      Moves(s, e, s', p);
      LateMore(s0, es, p);
      if p == e.p { LateMine(s, e, s', LateKill(s0, front, p)); }
      else {
        MakesIt(s, e.p, p);
        LateOther(s.procs[e.p], s.procs[p], s'.procs[p], e.p, p, s.waitLock, LateKill(s0, front, p));
      }
    }
  }

  lemma MakesIt(s: State, a: Pid, p: Pid)
    requires a < |s.procs| && p < |s.procs| && ForkFits(s, a, p)
    ensures Forks(s.procs[a].pc, p) ==> s.procs[p].state.USED?
  {
  }

  lemma NothingLate(s0: State, p: Pid)
    requires Bounds(s0) && Initial(s0) && p < |s0.procs|
    ensures !LateKill(s0, [], p) && LateFits(s0.procs[p], false)
  {
  }

  /**
  kill does not always end a wait: a process asleep in wait has been killed if and only if the kill came after
  wait had tested killed(p) and before sleep took p->lock. It then sleeps until a child exits.
  */
  lemma SleepsOnIff(s0: State, es: seq<Event>, p: Pid)
    requires Bounds(s0) && Initial(s0) && Exec(s0, es).Some? && p < |Exec(s0, es).value.procs|
    requires Exec(s0, es).value.procs[p].state.SLEEPING? && Exec(s0, es).value.procs[p].pc.WaitAsleep?
    ensures Exec(s0, es).value.procs[p].killed <==> LateKill(s0, es, p)
  {
    hide Exec, LateKill;
    LateInv(s0, es, p);
  }

  // ---- such a run ----

  /** init forks a child and waits for it; the kill comes when wait has found that there is a child. */
  const LATE_KILL: seq<Event> := [
    Dispatch(INIT), Fork(INIT, 1), Run(INIT), Run(INIT), Run(INIT),
    Wait(INIT), Run(INIT), Run(INIT), Run(INIT), Run(INIT),
    Run(INIT), Kill(INIT), Run(INIT), Run(INIT), Run(INIT)]

  /** init, running, and its child */
  function Me(pc: Pc): Proc {
    Proc(RUNNING, None, None, false, None, pc)
  }

  const KID := Proc(RUNNABLE, Some(INIT), None, false, None, User)

  function Two(me: Proc, child: Proc, waitLock: Option<Pid>): State {
    State([me, child], waitLock)
  }

  const START := Two(Proc(RUNNABLE, None, None, false, None, User), Proc(UNUSED, None, None, false, None, User), None)

  lemma OneMore(s: State, es: seq<Event>, k: nat, t: State, u: State)
    requires Bounds(s) && k < |es| && Exec(s, es[..k]) == Some(t) && Bounds(t) && Next(t, es[k]) == Some(u)
    ensures Exec(s, es[..k + 1]) == Some(u)
  {
    hide Next, Bounds;
    assert es[..k + 1][..k] == es[..k];
  }

  lemma Nothing(s: State, es: seq<Event>)
    requires Bounds(s)
    ensures Exec(s, es[..0]) == Some(s)
  {
  }

  lemma Moves2(t: State, e: Event, u: State)
    requires |t.procs| == |u.procs| == 2 && Bounds(t) && Next(t, e).Some?
    requires var v := Next(t, e).value; |v.procs| == 2 && v.procs[0] == u.procs[0] && v.procs[1] == u.procs[1]
    requires Next(t, e).value.waitLock == u.waitLock
    ensures Next(t, e) == Some(u)
  {
    hide Next, Bounds;
    assert Next(t, e).value.procs == u.procs;
  }

  lemma LateStarts()
    ensures Bounds(START) && Exec(START, LATE_KILL[..2]) ==
            Some(Two(Me(ForkCopy(1)), Proc(USED, None, None, false, Some(0), User), None))
  {
    hide Exec;
    Nothing(START, LATE_KILL);
    var s0 := START;
    var s1 := Two(Me(User), Proc(UNUSED, None, None, false, None, User), None);
    Moves2(s0, LATE_KILL[0], s1);
    OneMore(START, LATE_KILL, 0, s0, s1);
    var s2 := Two(Me(ForkCopy(1)), Proc(USED, None, None, false, Some(0), User), None);
    Moves2(s1, LATE_KILL[1], s2);
    OneMore(START, LATE_KILL, 1, s1, s2);
  }

  lemma LateForks()
    requires Bounds(START)
    requires Exec(START, LATE_KILL[..2]) ==
             Some(Two(Me(ForkCopy(1)), Proc(USED, None, None, false, Some(0), User), None))
    ensures Bounds(START) && Exec(START, LATE_KILL[..5]) == Some(Two(Me(User), KID, None))
  {
    hide Exec;
    var s2 := Two(Me(ForkCopy(1)), Proc(USED, None, None, false, Some(0), User), None);
    var s3 := Two(Me(ForkParent(1)), Proc(USED, None, None, false, None, User), None);
    Moves2(s2, LATE_KILL[2], s3);
    OneMore(START, LATE_KILL, 2, s2, s3);
    var s4 := Two(Me(ForkRun(1)), Proc(USED, Some(0), None, false, None, User), None);
    Moves2(s3, LATE_KILL[3], s4);
    OneMore(START, LATE_KILL, 3, s3, s4);
    var s5 := Two(Me(User), KID, None);
    Moves2(s4, LATE_KILL[4], s5);
    OneMore(START, LATE_KILL, 4, s4, s5);
  }

  lemma LateWaits()
    requires Bounds(START)
    requires Exec(START, LATE_KILL[..5]) == Some(Two(Me(User), KID, None))
    ensures Bounds(START) && Exec(START, LATE_KILL[..8]) == Some(Two(Me(WaitScan(1, false)), KID, Some(0)))
  {
    hide Exec;
    var s5 := Two(Me(User), KID, None);
    var s6 := Two(Me(WaitStart), KID, None);
    Moves2(s5, LATE_KILL[5], s6);
    OneMore(START, LATE_KILL, 5, s5, s6);
    var s7 := Two(Me(WaitScan(0, false)), KID, Some(0));
    Moves2(s6, LATE_KILL[6], s7);
    OneMore(START, LATE_KILL, 6, s6, s7);
    var s8 := Two(Me(WaitScan(1, false)), KID, Some(0));
    Moves2(s7, LATE_KILL[7], s8);
    OneMore(START, LATE_KILL, 7, s7, s8);
  }

  lemma LateDecides()
    requires Bounds(START)
    requires Exec(START, LATE_KILL[..8]) == Some(Two(Me(WaitScan(1, false)), KID, Some(0)))
    ensures Bounds(START) && Exec(START, LATE_KILL[..11]) == Some(Two(Me(WaitTakeP), KID, Some(0)))
  {
    hide Exec;
    var s8 := Two(Me(WaitScan(1, false)), KID, Some(0));
    var s9 := Two(Me(WaitScan(2, true)), KID, Some(0));
    Moves2(s8, LATE_KILL[8], s9);
    OneMore(START, LATE_KILL, 8, s8, s9);
    var s10 := Two(Me(WaitDecide(true)), KID, Some(0));
    Moves2(s9, LATE_KILL[9], s10);
    OneMore(START, LATE_KILL, 9, s9, s10);
    var s11 := Two(Me(WaitTakeP), KID, Some(0));
    Moves2(s10, LATE_KILL[10], s11);
    OneMore(START, LATE_KILL, 10, s10, s11);
  }

  lemma LateKilled()
    requires Bounds(START)
    requires Exec(START, LATE_KILL[..11]) == Some(Two(Me(WaitTakeP), KID, Some(0)))
    ensures Bounds(START) && Exec(START, LATE_KILL[..13]) ==
            Some(Two(Me(WaitDropLk).(killed := true, lock := Some(0)), KID, Some(0)))
  {
    hide Exec;
    var s11 := Two(Me(WaitTakeP), KID, Some(0));
    var s12 := Two(Me(WaitTakeP).(killed := true), KID, Some(0));
    Moves2(s11, LATE_KILL[11], s12);
    OneMore(START, LATE_KILL, 11, s11, s12);
    var s13 := Two(Me(WaitDropLk).(killed := true, lock := Some(0)), KID, Some(0));
    Moves2(s12, LATE_KILL[12], s13);
    OneMore(START, LATE_KILL, 12, s12, s13);
  }

  lemma LateSleeps()
    requires Bounds(START)
    requires Exec(START, LATE_KILL[..13]) == Some(Two(Me(WaitDropLk).(killed := true, lock := Some(0)), KID, Some(0)))
    ensures Bounds(START) && Exec(START, LATE_KILL[..15]) ==
            Some(Two(Proc(SLEEPING, None, Some(OnProc(0)), true, None, WaitAsleep), KID, None))
  {
    hide Exec;
    var s13 := Two(Me(WaitDropLk).(killed := true, lock := Some(0)), KID, Some(0));
    var s14 := Two(Me(WaitMark).(killed := true, lock := Some(0)), KID, None);
    Moves2(s13, LATE_KILL[13], s14);
    OneMore(START, LATE_KILL, 13, s13, s14);
    var s15 := Two(Proc(SLEEPING, None, Some(OnProc(0)), true, None, WaitAsleep), KID, None);
    Moves2(s14, LATE_KILL[14], s15);
    OneMore(START, LATE_KILL, 14, s14, s15);
  }

  /** From a boot with two slots: killed, and asleep in wait all the same. */
  lemma KilledYetAsleep(s: State)
    requires Initial(s) && |s.procs| == 2
    ensures Bounds(s) && Exec(s, LATE_KILL).Some?
    ensures var t := Exec(s, LATE_KILL).value;
            && |t.procs| == 2 && t.procs[INIT].killed && t.procs[INIT].state.SLEEPING? && t.procs[INIT].pc.WaitAsleep?
            && t.procs[1].state.RUNNABLE? && t.procs[1].parent == Some(INIT)
  {
    hide Exec;
    assert s == START;
    LateStarts();
    LateForks();
    LateWaits();
    LateDecides();
    LateKilled();
    LateSleeps();
    assert LATE_KILL[..15] == LATE_KILL;
  }
}
