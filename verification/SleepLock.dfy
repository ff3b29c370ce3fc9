/**
sleep and wakeup of kernel/proc.c under the sleep locks of kernel/sleeplock.c, as interleaved
steps of any number of processes. A step is what one process does between two points at
which another CPU can get in; every spinlock is explicit. The moment inside sleep at which
p->lock has been taken and lk released, but the state is not yet SLEEPING, is a step of its own.
*/
module SleepWakeup {
  import opened Wrappers

  type Pid = nat
  type Chan = nat  // a sleep lock, which is also the channel its waiters sleep on

  datatype RunState = RUNNING | RUNNABLE | SLEEPING

  /** Where a process is; the channel is the sleep lock it is working on. */
  datatype Pc =
    | Outside
    | AcquireInner(c: Chan)       // acquire(&lk->lk) in acquiresleep, or at the end of sleep
    | TestLocked(c: Chan)         // holds lk: while (lk->locked)
    | SleepTakeP(c: Chan)         // holds lk, in sleep: acquire(&p->lock)
    | SleepDropLk(c: Chan)        // holds lk and p->lock: release(lk)
    | SleepMark(c: Chan)          // holds p->lock only: p->chan, p->state = SLEEPING, sched
    | Asleep(c: Chan)             // switched out
    | Woken(c: Chan)              // running again, holding p->lock: p->chan = 0, release(&p->lock)
    | ReleaseInner(c: Chan)       // acquire(&lk->lk) in releasesleep
    | ClearLocked(c: Chan)        // holds lk: lk->locked = 0
    | WakeScan(c: Chan, i: nat)   // holds lk: wakeup has handled processes below i
    | DropInner(c: Chan)          // holds lk: release(&lk->lk)

  datatype Proc = Proc(state: RunState, chan: Option<Chan>, lock: Option<Pid>, pc: Pc)

  datatype Lock = Lock(
    inner: Option<Pid>,  // owner of lk->lk
    locked: bool,        // lk->locked
    pid: Option<Pid>)    // lk->pid

  datatype State = State(procs: seq<Proc>, locks: seq<Lock>)

  datatype Event =
    | StartAcquire(p: Pid, c: Chan)  // call acquiresleep
    | StartRelease(p: Pid, c: Chan)  // call releasesleep, holding the sleep lock
    | Run(p: Pid)                    // the next step of p's code
    | Dispatch(p: Pid)               // the scheduler runs p
    | Yield(p: Pid)                  // a timer interrupt, possible while p holds no spinlock
    | Kill(p: Pid)                   // kill makes p runnable

  predicate Bounds(s: State) {
    forall p :: 0 <= p < |s.procs| ==> PcIn(s.procs[p].pc, |s.procs|, |s.locks|)
  }

  predicate PcIn(pc: Pc, procs: nat, locks: nat) {
    match pc
    case Outside => true
    case WakeScan(c, i) => c < locks && i <= procs
    case _ => pc.c < locks
  }

  function SetProc(s: State, p: Pid, q: Proc): State
    requires p < |s.procs|
  {
    s.(procs := s.procs[p := q])
  }

  function SetPc(s: State, p: Pid, pc: Pc): State
    requires p < |s.procs|
  {
    SetProc(s, p, s.procs[p].(pc := pc))
  }

  function SetLock(s: State, c: Chan, l: Lock): State
    requires c < |s.locks|
  {
    s.(locks := s.locks[c := l])
  }

  /** The critical section of one pass of wakeup's loop. */
  function WakeOne(s: State, i: Pid, c: Chan): State
    requires i < |s.procs|
  {
    if s.procs[i].state.SLEEPING? && s.procs[i].chan == Some(c) then
      SetProc(s, i, s.procs[i].(state := RUNNABLE))
    else s
  }

  /** The next step of process p's own code; None while it spins on a lock. */
  function RunStep(s: State, p: Pid): Option<State>
    requires p < |s.procs| && Bounds(s)
  {
    var me := s.procs[p];
    match me.pc
    case Outside => None
    case AcquireInner(c) =>
      if s.locks[c].inner.None? then
        Some(SetPc(SetLock(s, c, s.locks[c].(inner := Some(p))), p, TestLocked(c)))
      else None
    case TestLocked(c) =>
      if s.locks[c].locked then Some(SetPc(s, p, SleepTakeP(c)))
      else Some(SetPc(SetLock(s, c, s.locks[c].(locked := true, pid := Some(p))), p, DropInner(c)))
    case SleepTakeP(c) =>
      if me.lock.None? then Some(SetProc(s, p, me.(lock := Some(p), pc := SleepDropLk(c)))) else None
    case SleepDropLk(c) =>
      Some(SetPc(SetLock(s, c, s.locks[c].(inner := None)), p, SleepMark(c)))
    case SleepMark(c) =>
      Some(SetProc(s, p, Proc(SLEEPING, Some(c), None, Asleep(c))))
    case Asleep(_) => None
    case Woken(c) =>
      Some(SetProc(s, p, me.(chan := None, lock := None, pc := AcquireInner(c))))
    case ReleaseInner(c) =>
      if s.locks[c].inner.None? then
        Some(SetPc(SetLock(s, c, s.locks[c].(inner := Some(p))), p, ClearLocked(c)))
      else None
    case ClearLocked(c) =>
      Some(SetPc(SetLock(s, c, s.locks[c].(locked := false, pid := None)), p, WakeScan(c, 0)))
    case WakeScan(c, i) =>
      if i == |s.procs| then Some(SetPc(s, p, DropInner(c)))
      else if i == p then Some(SetPc(s, p, WakeScan(c, i + 1)))
      else if s.procs[i].lock.None? then Some(SetPc(WakeOne(s, i, c), p, WakeScan(c, i + 1)))
      else None
    case DropInner(c) =>
      Some(SetPc(SetLock(s, c, s.locks[c].(inner := None)), p, Outside))
  }

  /** Pcs at which a process holds the inner spinlock of c. */
  predicate HoldsInner(pc: Pc, c: Chan) {
    && (pc.TestLocked? || pc.SleepTakeP? || pc.SleepDropLk? || pc.ClearLocked? || pc.WakeScan? || pc.DropInner?)
    && pc.c == c
  }

  predicate HoldsOwn(pc: Pc) {
    pc.SleepDropLk? || pc.SleepMark? || pc.Woken?
  }

  predicate HoldsNothing(pc: Pc) {
    pc.Outside? || pc.AcquireInner? || pc.ReleaseInner?
  }

  function Next(s: State, e: Event): Option<State>
    requires Bounds(s)
  {
    if e.p >= |s.procs| then None
    else
      var p := e.p;
      var me := s.procs[p];
      match e
      case StartAcquire(_, c) =>
        if me.state.RUNNING? && me.pc.Outside? && c < |s.locks| then Some(SetPc(s, p, AcquireInner(c))) else None
      case StartRelease(_, c) =>
        if me.state.RUNNING? && me.pc.Outside? && c < |s.locks| && s.locks[c].locked && s.locks[c].pid == Some(p)
        then Some(SetPc(s, p, ReleaseInner(c))) else None
      case Run(_) =>
        if me.state.RUNNING? then RunStep(s, p) else None
      case Dispatch(_) =>
        if me.state.RUNNABLE? && me.lock.None? then
          if me.pc.Asleep? then Some(SetProc(s, p, Proc(RUNNING, me.chan, Some(p), Woken(me.pc.c))))
          else Some(SetProc(s, p, me.(state := RUNNING)))
        else None
      case Yield(_) =>
        if me.state.RUNNING? && me.lock.None? && HoldsNothing(me.pc) then
          Some(SetProc(s, p, me.(state := RUNNABLE)))
        else None
      case Kill(_) =>
        if me.lock.None? && me.state.SLEEPING? then Some(SetProc(s, p, me.(state := RUNNABLE))) else None
  }

  function Exec(s: State, es: seq<Event>): Option<State>
    requires Bounds(s)
    decreases |es|
  {
    if es == [] then Some(s)
    else
      match Exec(s, es[..|es| - 1])
      case None => None
      case Some(mid) => if Bounds(mid) then Next(mid, es[|es| - 1]) else None
  }

  // ---- what every step keeps ----

  /** lk->lk belongs to exactly the process whose code is between its acquire and release. */
  ghost predicate InnerOwned(s: State) {
    forall c, p :: 0 <= c < |s.locks| && 0 <= p < |s.procs| ==>
      (s.locks[c].inner == Some(p) <==> HoldsInner(s.procs[p].pc, c))
  }

  ghost predicate OwnersExist(s: State) {
    forall c :: 0 <= c < |s.locks| && s.locks[c].inner.Some? ==> s.locks[c].inner.value < |s.procs|
  }

  ghost predicate OwnLocks(s: State) {
    forall p :: 0 <= p < |s.procs| ==> s.procs[p].lock == if HoldsOwn(s.procs[p].pc) then Some(p) else None
  }

  /** Only a process in Asleep is off its CPU for sleeping; only one holding no spinlock was preempted. */
  predicate StateFits(q: Proc) {
    match q.state
    case SLEEPING => q.pc.Asleep? && q.chan == Some(q.pc.c)
    case RUNNABLE => q.pc.Asleep? || HoldsNothing(q.pc)
    case RUNNING => !q.pc.Asleep?
  }

  ghost predicate States(s: State) {
    forall p :: 0 <= p < |s.procs| ==> StateFits(s.procs[p])
  }

  /** Asleep on c, or past the point at which it gave up lk to fall asleep on c. */
  predicate Sleepy(q: Proc, c: Chan) {
    (q.state.SLEEPING? && q.chan == Some(c)) || q.pc == SleepMark(c)
  }

  /** Some process holds lk inside wakeup and has not reached process p yet. */
  ghost predicate WakerBefore(s: State, c: Chan, p: Pid)
    requires c < |s.locks|
  {
    var w := s.locks[c].inner;
    w.Some? && w.value < |s.procs| && w.value != p && s.procs[w.value].pc.WakeScan? && s.procs[w.value].pc.i <= p
  }

  /** A process asleep on a sleep lock waits for a holder, or is about to be woken. */
  ghost predicate NoneStranded(s: State) {
    forall c, p :: 0 <= c < |s.locks| && 0 <= p < |s.procs| && Sleepy(s.procs[p], c) ==>
      s.locks[c].locked || WakerBefore(s, c, p)
  }

  /** The decision to sleep, and to release, was made with the lock taken. */
  ghost predicate Decided(s: State) {
    forall p :: 0 <= p < |s.procs| ==> DecidedAt(s, p)
  }

  predicate DecidedAt(s: State, p: Pid)
    requires p < |s.procs|
  {
    match s.procs[p].pc
    case SleepTakeP(c) => c < |s.locks| && s.locks[c].locked
    case SleepDropLk(c) => c < |s.locks| && s.locks[c].locked
    case ReleaseInner(c) => c < |s.locks| && s.locks[c].locked && s.locks[c].pid == Some(p)
    case ClearLocked(c) => c < |s.locks| && s.locks[c].locked && s.locks[c].pid == Some(p)
    case WakeScan(c, _) => c < |s.locks| && !s.locks[c].locked
    case _ => true
  }

  ghost predicate Inv(s: State) {
    Bounds(s) && InnerOwned(s) && OwnersExist(s) && OwnLocks(s) && States(s) && NoneStranded(s) && Decided(s)
  }

  lemma InnerExclusive(s: State, c: Chan, p: Pid, q: Pid)
    requires InnerOwned(s) && c < |s.locks| && p < |s.procs| && q < |s.procs|
    requires HoldsInner(s.procs[p].pc, c) && HoldsInner(s.procs[q].pc, c)
    ensures p == q
  {
    assert s.locks[c].inner == Some(p) && s.locks[c].inner == Some(q);
  }

  /** A step changes its own process, and makes other sleeping ones runnable at most. */
  ghost predicate Footprint(s: State, p: Pid, s': State) {
    && p < |s.procs| == |s'.procs| && |s'.locks| == |s.locks|
    && forall q :: 0 <= q < |s.procs| && q != p ==>
         s'.procs[q] == s.procs[q] || (s.procs[q].state.SLEEPING? && s'.procs[q] == s.procs[q].(state := RUNNABLE))
  }

  lemma RunFootprint(s: State, p: Pid, s': State)
    requires p < |s.procs| && Bounds(s) && RunStep(s, p) == Some(s')
    ensures Footprint(s, p, s') && !s.procs[p].pc.Outside? && PcIn(s'.procs[p].pc, |s'.procs|, |s'.locks|)
    ensures forall d :: 0 <= d < |s.locks| && d != s.procs[p].pc.c ==> s'.locks[d] == s.locks[d]
  {
  }

  lemma StepFootprint(s: State, e: Event, s': State)
    requires Bounds(s) && Next(s, e) == Some(s')
    ensures Footprint(s, e.p, s') && PcIn(s'.procs[e.p].pc, |s'.procs|, |s'.locks|)
    ensures !e.Run? ==> s'.locks == s.locks
    ensures e.Run? ==> RunStep(s, e.p) == Some(s')
  {
    hide RunStep;
    assert PcIn(s.procs[e.p].pc, |s.procs|, |s.locks|);
    if e.Run? { RunFootprint(s, e.p, s'); }
  }

  lemma BoundsKept(s: State, e: Event, s': State)
    requires Bounds(s) && Next(s, e) == Some(s')
    ensures Bounds(s') && |s'.procs| == |s.procs| && |s'.locks| == |s.locks|
  {
    hide Next, PcIn;
    StepFootprint(s, e, s');
  }

  /** Taking and giving up lk->lk goes with the place in the code. */
  lemma InnerChange(s: State, e: Event, s': State, c: Chan)
    requires Bounds(s) && Next(s, e) == Some(s') && e.p < |s.procs| == |s'.procs| && c < |s.locks| == |s'.locks|
    requires s.locks[c].inner == Some(e.p) <==> HoldsInner(s.procs[e.p].pc, c)
    ensures s'.locks[c].inner == Some(e.p) <==> HoldsInner(s'.procs[e.p].pc, c)
    ensures s'.locks[c].inner != s.locks[c].inner ==>
              if s'.locks[c].inner.None? then s.locks[c].inner == Some(e.p)
              else s.locks[c].inner.None? && s'.locks[c].inner == Some(e.p)
  {
  }

  lemma InnerOwnedKept(s: State, e: Event, s': State)
    requires Bounds(s) && InnerOwned(s) && OwnersExist(s) && Next(s, e) == Some(s')
    ensures InnerOwned(s')
  {
    hide Next, HoldsInner;
    StepFootprint(s, e, s');
    forall c, p | 0 <= c < |s'.locks| && 0 <= p < |s'.procs|
      ensures s'.locks[c].inner == Some(p) <==> HoldsInner(s'.procs[p].pc, c)
    {
      assert s.locks[c].inner == Some(p) <==> HoldsInner(s.procs[p].pc, c);
      assert s.locks[c].inner == Some(e.p) <==> HoldsInner(s.procs[e.p].pc, c);
      InnerChange(s, e, s', c);
    }
  }

  lemma OwnersExistKept(s: State, e: Event, s': State)
    requires Bounds(s) && OwnersExist(s) && Next(s, e) == Some(s')
    ensures OwnersExist(s')
  {
  }

  lemma OwnLockOf(s: State, e: Event, s': State)
    requires Bounds(s) && Next(s, e) == Some(s') && e.p < |s.procs| == |s'.procs| && StateFits(s.procs[e.p])
    requires s.procs[e.p].lock == if HoldsOwn(s.procs[e.p].pc) then Some(e.p) else None
    ensures s'.procs[e.p].lock == if HoldsOwn(s'.procs[e.p].pc) then Some(e.p) else None
  {
  }

  lemma OwnLocksKept(s: State, e: Event, s': State)
    requires Bounds(s) && OwnLocks(s) && States(s) && Next(s, e) == Some(s')
    ensures OwnLocks(s')
  {
    hide Next, HoldsOwn, StateFits;
    StepFootprint(s, e, s');
    OwnLockOf(s, e, s');
  }

  lemma StateOf(s: State, e: Event, s': State)
    requires Bounds(s) && Next(s, e) == Some(s') && e.p < |s.procs| == |s'.procs| && StateFits(s.procs[e.p])
    requires s.procs[e.p].lock == if HoldsOwn(s.procs[e.p].pc) then Some(e.p) else None
    ensures StateFits(s'.procs[e.p])
  {
  }

  lemma StatesKept(s: State, e: Event, s': State)
    requires Bounds(s) && OwnLocks(s) && States(s) && Next(s, e) == Some(s')
    ensures States(s')
  {
    hide Next;
    StepFootprint(s, e, s');
    StateOf(s, e, s');
  }

  /** What was decided for p, when p itself or another process makes a step. */
  lemma DecidedOf(s: State, e: Event, s': State)
    requires Bounds(s) && Next(s, e) == Some(s') && e.p < |s.procs| == |s'.procs| && |s.locks| == |s'.locks|
    requires DecidedAt(s, e.p)
    ensures DecidedAt(s', e.p)
  {
  }

  lemma DecidedOther(s: State, e: Event, s': State, p: Pid)
    requires Bounds(s) && Next(s, e) == Some(s') && p < |s.procs| == |s'.procs| && |s.locks| == |s'.locks|
    requires e.p < |s.procs| && p != e.p && s'.procs[p].pc == s.procs[p].pc && DecidedAt(s, p) && DecidedAt(s, e.p)
    requires forall c :: 0 <= c < |s.locks| && HoldsInner(s.procs[p].pc, c) ==> !HoldsInner(s.procs[e.p].pc, c)
    ensures DecidedAt(s', p)
  {
    var mine, yours := s.procs[p].pc, s.procs[e.p].pc;
    if !mine.Outside? && HoldsInner(mine, mine.c) { assert !HoldsInner(yours, mine.c); }
  }

  lemma DecidedKept(s: State, e: Event, s': State)
    requires Bounds(s) && InnerOwned(s) && Decided(s) && Next(s, e) == Some(s')
    ensures Decided(s')
  {
    hide Next, DecidedAt, HoldsInner, InnerOwned;
    StepFootprint(s, e, s');
    forall p | 0 <= p < |s'.procs| ensures DecidedAt(s', p) {
      assert DecidedAt(s, p) && DecidedAt(s, e.p);
      if p == e.p {
        DecidedOf(s, e, s');
      } else {
        forall c | 0 <= c < |s.locks| && HoldsInner(s.procs[p].pc, c) ensures !HoldsInner(s.procs[e.p].pc, c) {
          if HoldsInner(s.procs[e.p].pc, c) { InnerExclusive(s, c, p, e.p); }
        }
        DecidedOther(s, e, s', p);
      }
    }
  }

  /** One process p and one sleep lock c across one step. */
  lemma StillWoken(s: State, e: Event, s': State, c: Chan, p: Pid)
    requires Bounds(s) && Next(s, e) == Some(s')
    requires c < |s.locks| && p < |s.procs| && Sleepy(s'.procs[p], c)
    requires StateFits(s.procs[p]) && StateFits(s.procs[e.p]) && DecidedAt(s, e.p) && DecidedAt(s, p)
    requires s.procs[p].lock == if HoldsOwn(s.procs[p].pc) then Some(p) else None
    requires s.locks[c].inner == Some(e.p) <==> HoldsInner(s.procs[e.p].pc, c)
    requires Sleepy(s.procs[p], c) ==> s.locks[c].locked || WakerBefore(s, c, p)
    ensures s'.locks[c].locked || WakerBefore(s', c, p)
  {
  }

  lemma NoneStrandedKept(s: State, e: Event, s': State)
    requires Inv(s) && Next(s, e) == Some(s')
    ensures NoneStranded(s')
  {
    hide Next, Sleepy, WakerBefore, HoldsInner, HoldsOwn, StateFits, DecidedAt;
    BoundsKept(s, e, s');
    ActorExists(s, e);
    forall c, p | 0 <= c < |s'.locks| && 0 <= p < |s'.procs| && Sleepy(s'.procs[p], c)
      ensures s'.locks[c].locked || WakerBefore(s', c, p)
    {
      StillWoken(s, e, s', c, p);
    }
  }

  lemma ActorExists(s: State, e: Event)
    requires Bounds(s) && Next(s, e).Some?
    ensures e.p < |s.procs|
  {
  }

  lemma StepInv(s: State, e: Event, s': State)
    requires Inv(s) && Next(s, e) == Some(s')
    ensures Inv(s')
  {
    hide Next;
    hide Bounds, InnerOwned, OwnersExist, OwnLocks, States, NoneStranded, Decided;
    BoundsKept(s, e, s');
    InnerOwnedKept(s, e, s');
    OwnersExistKept(s, e, s');
    OwnLocksKept(s, e, s');
    StatesKept(s, e, s');
    NoneStrandedKept(s, e, s');
    DecidedKept(s, e, s');
  }

  // ---- over whole runs ----

  ghost predicate Initial(s: State) {
    && (forall p :: 0 <= p < |s.procs| ==> s.procs[p] == Proc(RUNNABLE, None, None, Outside))
    && (forall c :: 0 <= c < |s.locks| ==> s.locks[c] == Lock(None, false, None))
  }

  lemma {:induction false} RunInv(s: State, es: seq<Event>)
    requires Initial(s) && Exec(s, es).Some?
    ensures Inv(Exec(s, es).value)
    decreases |es|
  {
    if es != [] {
      RunInv(s, es[..|es| - 1]);
      StepInv(Exec(s, es[..|es| - 1]).value, es[|es| - 1], Exec(s, es).value);
    }
  }

  lemma RunBounds(s: State, es: seq<Event>)
    requires Initial(s) && Exec(s, es).Some?
    ensures Bounds(Exec(s, es).value)
    ensures |Exec(s, es).value.procs| == |s.procs| && |Exec(s, es).value.locks| == |s.locks|
    decreases |es|
  {
    if es != [] {
      RunBounds(s, es[..|es| - 1]);
      BoundsKept(Exec(s, es[..|es| - 1]).value, es[|es| - 1], Exec(s, es).value);
    }
  }

  /** No lost wakeup: whenever a sleep lock and its spinlock are both free, nobody sleeps on it. */
  lemma NoLostWakeup(s0: State, es: seq<Event>, c: Chan)
    requires Initial(s0) && Exec(s0, es).Some? && c < |Exec(s0, es).value.locks|
    requires var l := Exec(s0, es).value.locks[c]; l.inner.None? && !l.locked
    ensures forall p :: 0 <= p < |Exec(s0, es).value.procs| ==> !Sleepy(Exec(s0, es).value.procs[p], c)
  {
    hide Exec, Next, Initial;
    RunInv(s0, es);
  }

  /** When wakeup(c) returns, with lk still held, nobody that gave up lk before the call is asleep on c. */
  lemma WakeupReachesAll(s0: State, es: seq<Event>, w: Pid, c: Chan)
    requires Initial(s0) && Exec(s0, es).Some? && w < |Exec(s0, es).value.procs|
    requires var s := Exec(s0, es).value; s.procs[w].pc == WakeScan(c, |s.procs|)
    ensures forall p :: 0 <= p < |Exec(s0, es).value.procs| ==> !Sleepy(Exec(s0, es).value.procs[p], c)
  {
    hide Exec, Next;
    RunInv(s0, es);
    var s := Exec(s0, es).value;
    assert DecidedAt(s, w);
    assert HoldsInner(s.procs[w].pc, c);
  }

  /** The lock stays with its holder until the holder itself clears it. */
  lemma HolderKept(s: State, e: Event, s': State, c: Chan, p: Pid)
    requires Inv(s) && Next(s, e) == Some(s') && c < |s.locks| && p < |s.procs|
    requires s.locks[c].locked && s.locks[c].pid == Some(p)
    requires e == Run(p) ==> s.procs[p].pc != ClearLocked(c)
    ensures c < |s'.locks| && s'.locks[c].locked && s'.locks[c].pid == Some(p)
  {
    hide InnerOwned, OwnersExist, OwnLocks, States, NoneStranded;
    assert e.p < |s.procs| && DecidedAt(s, e.p);
  }

  /** Mutual exclusion over a run: from acquisition until p itself clears the lock, it is p's alone. */
  lemma {:induction false} MutualExclusion(s0: State, es: seq<Event>, fs: seq<Event>, c: Chan, p: Pid)
    requires Initial(s0) && Exec(s0, es + fs).Some? && Exec(s0, es).Some?
    requires var s := Exec(s0, es).value;
             c < |s.locks| && p < |s.procs| && s.locks[c].locked && s.locks[c].pid == Some(p)
    requires forall k :: 0 <= k < |fs| && fs[k] == Run(p) && Exec(s0, es + fs[..k]).Some? &&
                         p < |Exec(s0, es + fs[..k]).value.procs| ==>
               Exec(s0, es + fs[..k]).value.procs[p].pc != ClearLocked(c)
    ensures var s := Exec(s0, es + fs).value;
            c < |s.locks| && p < |s.procs| && s.locks[c].locked && s.locks[c].pid == Some(p)
    decreases |fs|
  {
    hide Next, Inv;
    if fs == [] {
      assert es + fs == es;
    } else {
      var n := |fs| - 1;
      var front := fs[..n];
      assert (es + fs)[..|es + fs| - 1] == es + front;
      forall k | 0 <= k < n
        ensures front[..k] == fs[..k]
      {
      }
      MutualExclusion(s0, es, front, c, p);
      RunInv(s0, es + front);
      HolderKept(Exec(s0, es + front).value, fs[n], Exec(s0, es + fs).value, c, p);
      RunBounds(s0, es + front);
      RunBounds(s0, es + fs);
    }
  }
}
