/**
What acquiresleep and releasesleep come to, in any run of the machine of SleepWakeup: who holds a sleep lock once
the calls have returned, and that whoever waits is waiting for somebody who can go on.
*/
module SleepOutcomes {
  import opened Wrappers
  import opened SleepWakeup

  datatype Call = Acquired | Released

  /** The last of p's calls that was about sleep lock c. */
  function LastOn(es: seq<Event>, p: Pid, c: Chan): Option<Call>
    decreases |es|
  {
    if es == [] then None
    else
      match es[|es| - 1]
      case StartAcquire(q, d) => if q == p && d == c then Some(Acquired) else LastOn(es[..|es| - 1], p, c)
      case StartRelease(q, d) => if q == p && d == c then Some(Released) else LastOn(es[..|es| - 1], p, c)
      case _ => LastOn(es[..|es| - 1], p, c)
  }

  predicate HoldsSleep(l: Lock, p: Pid) {
    l.locked && l.pid == Some(p)
  }

  /** Still to take the sleep lock. */
  predicate Acquiring(pc: Pc) {
    pc.AcquireInner? || pc.TestLocked? || pc.SleepTakeP? || pc.SleepDropLk? || pc.SleepMark? || pc.Asleep? || pc.Woken?
  }

  /** Still to give it up. */
  predicate Releasing(pc: Pc) {
    pc.ReleaseInner? || pc.ClearLocked?
  }

  predicate CallFits(pc: Pc, c: Chan, last: Option<Call>, held: bool) {
    if pc.Outside? || pc.c != c then held <==> last == Some(Acquired)
    else if Acquiring(pc) then last == Some(Acquired)
    else if Releasing(pc) then last == Some(Released)
    else held <==> last == Some(Acquired)
  }

  /** p moves. */
  lemma OwnCall(s: State, e: Event, s': State, c: Chan, last: Option<Call>, last': Option<Call>)
    requires Bounds(s) && Next(s, e) == Some(s') && c < |s.locks| == |s'.locks| && e.p < |s.procs| == |s'.procs|
    requires DecidedAt(s, e.p) && CallFits(s.procs[e.p].pc, c, last, HoldsSleep(s.locks[c], e.p))
    requires last' == if e == StartAcquire(e.p, c) then Some(Acquired)
                      else if e == StartRelease(e.p, c) then Some(Released) else last
    ensures CallFits(s'.procs[e.p].pc, c, last', HoldsSleep(s'.locks[c], e.p))
  {
  }

  /** Another process moves: it can neither take from p what p holds nor give p what it does not. */
  lemma OtherCall(s: State, e: Event, s': State, c: Chan, p: Pid)
    requires Bounds(s) && Next(s, e) == Some(s') && c < |s.locks| == |s'.locks| && e.p < |s.procs| == |s'.procs|
    requires DecidedAt(s, e.p) && p != e.p
    ensures HoldsSleep(s'.locks[c], p) <==> HoldsSleep(s.locks[c], p)
  {
  }

  lemma {:induction false} RunCalls(s0: State, es: seq<Event>, c: Chan, p: Pid)
    requires Initial(s0) && Exec(s0, es).Some? && c < |s0.locks| && p < |s0.procs|
    ensures |Exec(s0, es).value.procs| == |s0.procs| && |Exec(s0, es).value.locks| == |s0.locks|
    ensures var s := Exec(s0, es).value; CallFits(s.procs[p].pc, c, LastOn(es, p, c), HoldsSleep(s.locks[c], p))
    decreases |es|
  {
    hide Inv, Next, CallFits, HoldsSleep, DecidedAt, PcIn;
    StartBounds(s0);
    RunBounds(s0, es);
    if es == [] {
      Outsiders(s0, c, p);
    } else {
      var front, e := es[..|es| - 1], es[|es| - 1];
      RunCalls(s0, front, c, p);
      RunInv(s0, front);
      var s, s' := Exec(s0, front).value, Exec(s0, es).value;
      ActorExists(s, e);
      DecisionOf(s, e.p);
      StepFootprint(s, e, s');
      if p == e.p {
        OwnCall(s, e, s', c, LastOn(front, p, c), LastOn(es, p, c));
      } else {
        OtherCall(s, e, s', c, p);
      }
    }
  }

  lemma StartBounds(s0: State)
    requires Initial(s0)
    ensures Bounds(s0)
  {
  }

  lemma Outsiders(s0: State, c: Chan, p: Pid)
    requires Initial(s0) && c < |s0.locks| && p < |s0.procs|
    ensures CallFits(s0.procs[p].pc, c, None, HoldsSleep(s0.locks[c], p))
  {
  }

  lemma DecisionOf(s: State, p: Pid)
    requires Inv(s) && p < |s.procs|
    ensures Bounds(s) && DecidedAt(s, p)
  {
  }

  /** A process outside of the calls holds a sleep lock if and only if its last call about it was acquiresleep. */
  lemma HeldIff(s0: State, es: seq<Event>, c: Chan, p: Pid)
    requires Initial(s0) && Exec(s0, es).Some? && c < |s0.locks| && p < |s0.procs|
    requires p < |Exec(s0, es).value.procs| && Exec(s0, es).value.procs[p].pc.Outside?
    ensures c < |Exec(s0, es).value.locks|
    ensures HoldsSleep(Exec(s0, es).value.locks[c], p) <==> LastOn(es, p, c) == Some(Acquired)
  {
    hide Exec, Initial, LastOn, HoldsSleep;
    StartBounds(s0);
    RunCalls(s0, es, c, p);
  }

  /** p->chan is set exactly from falling asleep until p runs again and clears it. */
  predicate ChanFits(q: Proc) {
    q.chan == if q.pc.Asleep? || q.pc.Woken? then Some(q.pc.c) else None
  }

  lemma ChanStep(s: State, e: Event, s': State)
    requires Bounds(s) && Next(s, e) == Some(s') && e.p < |s.procs| == |s'.procs|
    requires ChanFits(s.procs[e.p]) && StateFits(s.procs[e.p])
    ensures ChanFits(s'.procs[e.p])
  {
  }

  lemma {:induction false} ChanIs(s0: State, es: seq<Event>, p: Pid)
    requires Initial(s0) && Exec(s0, es).Some? && p < |s0.procs|
    ensures p < |Exec(s0, es).value.procs| && ChanFits(Exec(s0, es).value.procs[p])
    decreases |es|
  {
    hide Inv, Next, ChanFits, PcIn;
    StartBounds(s0);
    RunBounds(s0, es);
    if es == [] {
      NoChan(s0, p);
    } else {
      var front, e := es[..|es| - 1], es[|es| - 1];
      ChanIs(s0, front, p);
      RunInv(s0, front);
      var s, s' := Exec(s0, front).value, Exec(s0, es).value;
      ActorExists(s, e);
      RunBounds(s0, front);
      StepFootprint(s, e, s');
      StateOfProc(s, p);
      if p == e.p { ChanStep(s, e, s'); } else { SameChan(s.procs[p], s'.procs[p]); }
    }
  }

  lemma NoChan(s0: State, p: Pid)
    requires Initial(s0) && p < |s0.procs|
    ensures ChanFits(s0.procs[p])
  {
  }

  lemma StateOfProc(s: State, p: Pid)
    requires Inv(s) && p < |s.procs|
    ensures Bounds(s) && StateFits(s.procs[p]) && s.procs[p].lock == if HoldsOwn(s.procs[p].pc) then Some(p) else None
  {
  }

  lemma SameChan(q: Proc, q': Proc)
    requires ChanFits(q) && (q' == q || q' == q.(state := RUNNABLE))
    ensures ChanFits(q')
  {
  }

  // ---- nobody waits for nothing ----

  /** p's code can make its next step. */
  predicate CanRun(s: State, p: Pid)
    requires Bounds(s)
  {
    p < |s.procs| && Next(s, Run(p)).Some?
  }

  /** The process that has what p spins for. */
  function Blocker(s: State, p: Pid): Option<Pid>
    requires p < |s.procs| && Bounds(s)
  {
    match s.procs[p].pc
    case AcquireInner(c) => s.locks[c].inner
    case ReleaseInner(c) => s.locks[c].inner
    case WakeScan(_, i) => if i < |s.procs| && i != p then s.procs[i].lock else None
    case _ => None
  }

  /** A process on a CPU, inside a call, that spins for nothing has a step, */
  lemma UnblockedRuns(s: State, p: Pid)
    requires Bounds(s) && p < |s.procs| && s.procs[p].state.RUNNING? && StateFits(s.procs[p])
    requires s.procs[p].lock == if HoldsOwn(s.procs[p].pc) then Some(p) else None
    requires Blocker(s, p).None? && !s.procs[p].pc.Outside?
    ensures CanRun(s, p)
  {
  }

  /** and what it spins for is held by another process on a CPU, inside a call, that is further on in the order. */
  lemma BlockerIs(s: State, p: Pid)
    requires Inv(s) && Bounds(s) && p < |s.procs| && Blocker(s, p).Some?
    ensures var q := Blocker(s, p).value;
            && q < |s.procs| && q != p && s.procs[q].state.RUNNING? && !s.procs[q].pc.Outside?
            && (HoldsOwn(s.procs[q].pc) || HoldsInner(s.procs[q].pc, s.procs[q].pc.c))
            && (s.procs[p].pc.WakeScan? ==> HoldsOwn(s.procs[q].pc))
  {
    hide Decided, NoneStranded;
    StateOfProc(s, p);
    var q := Blocker(s, p).value;
    match s.procs[p].pc
    case AcquireInner(c) => HolderOf(s, c);
    case ReleaseInner(c) => HolderOf(s, c);
    case WakeScan(_, i) => StateOfProc(s, i);
    case _ =>
  }

  lemma HolderOf(s: State, c: Chan)
    requires Inv(s) && c < |s.locks| && s.locks[c].inner.Some?
    ensures var q := s.locks[c].inner.value;
            q < |s.procs| && HoldsInner(s.procs[q].pc, c) && s.procs[q].state.RUNNING?
  {
    assert s.locks[c].inner == Some(s.locks[c].inner.value);
    StateOfProc(s, s.locks[c].inner.value);
  }

  /** Where the waits end that p is at the head of: two spinlocks are waited for at most. */
  function Behind(s: State, p: Pid): Pid
    requires p < |s.procs| && Bounds(s)
  {
    match Blocker(s, p)
    case None => p
    case Some(q) =>
      if q >= |s.procs| then p
      else
        match Blocker(s, q)
        case None => q
        case Some(r) => r
  }

  /** In every run, a process inside a call that is on a CPU has somebody behind it who can make a step, */
  lemma NoDeadlock(s0: State, es: seq<Event>, p: Pid)
    requires Initial(s0) && Exec(s0, es).Some? && p < |Exec(s0, es).value.procs|
    requires var me := Exec(s0, es).value.procs[p]; me.state.RUNNING? && !me.pc.Outside?
    ensures var s := Exec(s0, es).value; Bounds(s) && CanRun(s, Behind(s, p))
  {
    hide Inv, Exec, Initial, Next, Blocker, StateFits, HoldsOwn, HoldsInner;
    StartBounds(s0);
    RunInv(s0, es);
    var s := Exec(s0, es).value;
    StateOfProc(s, p);
    if Blocker(s, p).None? {
      UnblockedRuns(s, p);
    } else {
      BlockerIs(s, p);
      var q := Blocker(s, p).value;
      StateOfProc(s, q);
      if Blocker(s, q).None? {
        UnblockedRuns(s, q);
      } else {
        BlockerIs(s, q);
        SecondIs(s, q);
        var r := Blocker(s, q).value;
        StateOfProc(s, r);
        OwnersUnblocked(s, r);
        UnblockedRuns(s, r);
      }
    }
  }

  /** One that holds a spinlock spins only inside wakeup, */
  lemma SecondIs(s: State, q: Pid)
    requires Bounds(s) && q < |s.procs| && Blocker(s, q).Some?
    requires HoldsOwn(s.procs[q].pc) || (!s.procs[q].pc.Outside? && HoldsInner(s.procs[q].pc, s.procs[q].pc.c))
    ensures s.procs[q].pc.WakeScan?
  {
  }

  /** and one that holds its own p->lock does not spin. */
  lemma OwnersUnblocked(s: State, r: Pid)
    requires Bounds(s) && r < |s.procs| && HoldsOwn(s.procs[r].pc)
    ensures Blocker(s, r).None?
  {
  }

  /**
  one that is RUNNABLE can be dispatched, and one asleep sleeps on a sleep lock that is held, or has the process in
  front of it that is going to wake it.
  */
  lemma WaitsForSomebody(s0: State, es: seq<Event>, p: Pid)
    requires Initial(s0) && Exec(s0, es).Some? && p < |Exec(s0, es).value.procs|
    ensures var s := Exec(s0, es).value;
      && Bounds(s)
      && match s.procs[p].state
         case RUNNING => true
         case RUNNABLE => Next(s, Dispatch(p)).Some?
         case SLEEPING =>
           && s.procs[p].pc.Asleep?
           && (s.locks[s.procs[p].pc.c].locked || WakerBefore(s, s.procs[p].pc.c, p))
  {
    hide Exec, Initial, InnerOwned, OwnersExist, WakerBefore;
    StartBounds(s0);
    RunInv(s0, es);
    var s := Exec(s0, es).value;
    StateOfProc(s, p);
    assert s.procs[p].state.SLEEPING? ==> Sleepy(s.procs[p], s.procs[p].pc.c);
  }

  /** kill can always make a sleeper go on; it comes back to test lk->locked again. */
  lemma KillWakes(s0: State, es: seq<Event>, p: Pid)
    requires Initial(s0) && Exec(s0, es).Some? && p < |Exec(s0, es).value.procs|
    requires Exec(s0, es).value.procs[p].state.SLEEPING?
    ensures var s := Exec(s0, es).value; Bounds(s) && Next(s, Kill(p)).Some?
    ensures var s, s' := Exec(s0, es).value, Next(Exec(s0, es).value, Kill(p)).value;
            && s' == s.(procs := s.procs[p := s.procs[p].(state := RUNNABLE)])
            && Bounds(s') && Next(s', Dispatch(p)).Some? && s'.procs[p].pc.Asleep?
  {
    hide Exec, Initial, InnerOwned, OwnersExist, NoneStranded;
    StartBounds(s0);
    RunInv(s0, es);
    var s := Exec(s0, es).value;
    StateOfProc(s, p);
    BoundsKept(s, Kill(p), Next(s, Kill(p)).value);
  }

  // ---- runs there are ----

  lemma OneMore(s: State, es: seq<Event>, k: nat, t: State, u: State)
    requires Bounds(s) && k < |es| && Exec(s, es[..k]) == Some(t) && Bounds(t) && Next(t, es[k]) == Some(u)
    ensures Exec(s, es[..k + 1]) == Some(u)
  {
    hide Next, Bounds;
    assert es[..k + 1][..k] == es[..k];
  }

  lemma Nothing(s: State, es: seq<Event>)
    requires Bounds(s)
    ensures Exec(s, es[..0]) == Some(s)
  {
  }

  function Acquires(p: Pid, c: Chan): seq<Event> {
    [Dispatch(p), StartAcquire(p, c), Run(p), Run(p), Run(p)]
  }

  /** From the start, any process gets any sleep lock, and acquiresleep returns to it. */
  lemma FirstAcquire(s0: State, c: Chan, p: Pid)
    requires Initial(s0) && c < |s0.locks| && p < |s0.procs|
    ensures Exec(s0, Acquires(p, c)).Some?
    ensures var s := Exec(s0, Acquires(p, c)).value;
            && |s.procs| == |s0.procs| && |s.locks| == |s0.locks| && s.procs[p].pc.Outside?
            && HoldsSleep(s.locks[c], p) && s.locks[c].inner.None?
  {
    hide Exec;
    var es := Acquires(p, c);
    var me := Proc(RUNNING, None, None, Outside);
    var s1 := SetProc(s0, p, me);
    var s2 := SetPc(s1, p, AcquireInner(c));
    var s3 := SetPc(SetLock(s2, c, Lock(Some(p), false, None)), p, TestLocked(c));
    var s4 := SetPc(SetLock(s3, c, Lock(Some(p), true, Some(p))), p, DropInner(c));
    var s5 := SetPc(SetLock(s4, c, Lock(None, true, Some(p))), p, Outside);
    Nothing(s0, es);
    OneMore(s0, es, 0, s0, s1);
    OneMore(s0, es, 1, s1, s2);
    OneMore(s0, es, 2, s2, s3);
    OneMore(s0, es, 3, s3, s4);
    OneMore(s0, es, 4, s4, s5);
    assert es[..5] == es;
  }
}
