/**
fork, exit, reparent, wait and kill of kernel/proc.c as interleaved steps of many CPUs, with
wait_lock and every p->lock explicit. (waitx runs the same steps as wait.)
*/
module WaitExit {
  import opened Procs
  import opened Wrappers

  type Pid = nat  // an index into proc[]

  const INIT: Pid := 0  // initproc

  /** A sleeping process waits in wait() on its own address, or elsewhere in the kernel. */
  datatype Chan = OnProc(p: Pid) | Elsewhere

  datatype Pc =
    | User                           // anything not listed below
    | Blocked                        // asleep on some other channel
    | ForkCopy(np: Pid)              // fork has np from allocproc, and np->lock
    | ForkParent(np: Pid)            // acquire(&wait_lock), np->parent = p, release
    | ForkRun(np: Pid)               // np->state = RUNNABLE under np->lock
    | ExitStart                      // acquire(&wait_lock)
    | Reparent(i: nat)               // holds wait_lock: reparent has handled processes below i
    | WakeInit(i: nat, j: nat)       // holds wait_lock: child i moved, wakeup(initproc) at j
    | WakeParent(j: nat)             // holds wait_lock: wakeup(p->parent) at j
    | BecomeZombie                   // holds wait_lock: acquire(&p->lock), p->state = ZOMBIE
    | ExitDropWait                   // holds both: release(&wait_lock)
    | ExitSwitch                     // holds p->lock: sched()
    | Gone                           // off its kernel stack for good
    | WaitStart                      // acquire(&wait_lock)
    | WaitScan(i: nat, kids: bool)   // holds wait_lock: processes below i have been looked at
    | WaitDecide(kids: bool)         // holds wait_lock: !havekids || killed(p)
    | WaitTakeP                      // holds wait_lock, in sleep: acquire(&p->lock)
    | WaitDropLk                     // holds both: release(&wait_lock)
    | WaitMark                       // holds p->lock: p->chan = p, p->state = SLEEPING, sched
    | WaitAsleep                     // switched out
    | WaitWoken                      // holds p->lock: p->chan = 0, release(&p->lock)

  datatype Proc = Proc(
    state: ProcState, parent: Option<Pid>, chan: Option<Chan>, killed: bool, lock: Option<Pid>, pc: Pc)

  datatype State = State(procs: seq<Proc>, waitLock: Option<Pid>)

  datatype Event =
    | Fork(p: Pid, np: Pid)   // allocproc found np
    | ForkFail(p: Pid)        // uvmcopy failed
    | Exit(p: Pid)
    | Wait(p: Pid)
    | WaitFail(p: Pid)        // copyout of the exit status failed
    | Run(p: Pid)             // the next step of p's code
    | Kill(p: Pid)            // kill finds p; kill(0) finds an unused slot, whose pid is 0
    | Block(p: Pid)           // p sleeps on some other channel
    | Unblock(p: Pid)         // and is woken there
    | Dispatch(p: Pid)        // the scheduler runs p
    | Yield(p: Pid)           // a timer interrupt while p holds no spinlock

  function SetProc(s: State, p: Pid, q: Proc): State
    requires p < |s.procs|
  {
    s.(procs := s.procs[p := q])
  }

  function SetPc(s: State, p: Pid, pc: Pc): State
    requires p < |s.procs|
  {
    SetProc(s, p, s.procs[p].(pc := pc))
  }

  predicate Bounds(s: State) {
    && INIT < |s.procs|
    && forall p :: 0 <= p < |s.procs| ==> PcBounds(s.procs[p].pc, |s.procs|)
  }

  predicate PcBounds(pc: Pc, n: nat) {
    match pc
    case ForkCopy(np) => np < n
    case ForkParent(np) => np < n
    case ForkRun(np) => np < n
    case Reparent(i) => i <= n
    case WakeInit(i, j) => i < n && j <= n
    case WakeParent(j) => j <= n
    case WaitScan(i, _) => i <= n
    case _ => true
  }

  /** The critical section of one pass of wakeup's loop. */
  function WakeOne(s: State, j: Pid, target: Option<Pid>): State
    requires j < |s.procs|
  {
    if s.procs[j].state.SLEEPING? && target.Some? && s.procs[j].chan == Some(OnProc(target.value)) then
      SetProc(s, j, s.procs[j].(state := RUNNABLE))
    else s
  }

  /** One pass of wakeup's loop by p, going on to pc; None while procs[j] is locked. */
  function WakePass(s: State, p: Pid, j: Pid, target: Option<Pid>, pc: Pc): Option<State>
    requires p < |s.procs| && j < |s.procs|
  {
    if j == p then Some(SetPc(s, p, pc))
    else if s.procs[j].lock.None? then Some(SetPc(WakeOne(s, j, target), p, pc))
    else None
  }

  /** freeproc; the dead process's stack is not touched. */
  function Freed(q: Proc): Proc {
    Proc(UNUSED, None, None, false, None, q.pc)
  }

  /** The look wait takes at process i: None while i is a child whose lock is held. */
  function ScanStep(s: State, p: Pid, i: nat, kids: bool): Option<State>
    requires p < |s.procs| && i < |s.procs|
  {
    if s.procs[i].parent != Some(p) then Some(SetPc(s, p, WaitScan(i + 1, kids)))
    else if s.procs[i].lock.Some? then None
    else if s.procs[i].state.ZOMBIE? then Some(SetPc(SetProc(s, i, Freed(s.procs[i])).(waitLock := None), p, User))
    else Some(SetPc(s, p, WaitScan(i + 1, true)))
  }

  predicate InFork(pc: Pc) {
    pc.ForkCopy? || pc.ForkParent? || pc.ForkRun?
  }

  predicate Exiting(pc: Pc) {
    pc.ExitStart? || pc.Reparent? || pc.WakeInit? || pc.WakeParent? || pc.BecomeZombie? || pc.ExitDropWait? ||
        pc.ExitSwitch? || pc.Gone?
  }

  /** The next step of process p inside fork; None while it spins on a lock. */
  function ForkStep(s: State, p: Pid): Option<State>
    requires p < |s.procs| && Bounds(s)
  {
    match s.procs[p].pc
    case ForkCopy(np) => Some(SetPc(SetProc(s, np, s.procs[np].(lock := None)), p, ForkParent(np)))
    case ForkParent(np) =>
      if s.waitLock.None? then Some(SetPc(SetProc(s, np, s.procs[np].(parent := Some(p))), p, ForkRun(np))) else None
    case ForkRun(np) =>
      if s.procs[np].lock.None? then Some(SetPc(SetProc(s, np, s.procs[np].(state := RUNNABLE)), p, User)) else None
    case _ => None
  }

  /** The next step of process p inside exit. */
  function ExitStep(s: State, p: Pid): Option<State>
    requires p < |s.procs| && Bounds(s)
  {
    var me := s.procs[p];
    var n := |s.procs|;
    match me.pc
    case ExitStart =>
      if s.waitLock.None? then Some(SetPc(s.(waitLock := Some(p)), p, Reparent(0))) else None
    case Reparent(i) =>
      if i == n then Some(SetPc(s, p, WakeParent(0)))
      else if s.procs[i].parent == Some(p) then
        Some(SetPc(SetProc(s, i, s.procs[i].(parent := Some(INIT))), p, WakeInit(i, 0)))
      else Some(SetPc(s, p, Reparent(i + 1)))
    case WakeInit(i, j) =>
      if j == n then Some(SetPc(s, p, Reparent(i + 1))) else WakePass(s, p, j, Some(INIT), WakeInit(i, j + 1))
    case WakeParent(j) =>
      if j == n then Some(SetPc(s, p, BecomeZombie)) else WakePass(s, p, j, me.parent, WakeParent(j + 1))
    case BecomeZombie =>
      if me.lock.None? then Some(SetProc(s, p, me.(state := ZOMBIE, lock := Some(p), pc := ExitDropWait))) else None
    case ExitDropWait => Some(SetPc(s.(waitLock := None), p, ExitSwitch))
    case ExitSwitch => Some(SetProc(s, p, me.(lock := None, pc := Gone)))
    case _ => None
  }

  /** The next step of process p inside wait. */
  function WaitStep(s: State, p: Pid): Option<State>
    requires p < |s.procs| && Bounds(s)
  {
    var me := s.procs[p];
    match me.pc
    case WaitStart =>
      if s.waitLock.None? then Some(SetPc(s.(waitLock := Some(p)), p, WaitScan(0, false))) else None
    case WaitScan(i, kids) =>
      if i == |s.procs| then Some(SetPc(s, p, WaitDecide(kids))) else ScanStep(s, p, i, kids)
    case WaitDecide(kids) =>
      if !kids || me.killed then Some(SetPc(s.(waitLock := None), p, User)) else Some(SetPc(s, p, WaitTakeP))
    case WaitTakeP =>
      if me.lock.None? then Some(SetProc(s, p, me.(lock := Some(p), pc := WaitDropLk))) else None
    case WaitDropLk => Some(SetPc(s.(waitLock := None), p, WaitMark))
    case WaitMark =>
      Some(SetProc(s, p, me.(state := SLEEPING, chan := Some(OnProc(p)), lock := None, pc := WaitAsleep)))
    case WaitWoken => Some(SetProc(s, p, me.(chan := None, lock := None, pc := WaitStart)))
    case _ => None
  }

  function RunStep(s: State, p: Pid): Option<State>
    requires p < |s.procs| && Bounds(s)
  {
    if InFork(s.procs[p].pc) then ForkStep(s, p)
    else if Exiting(s.procs[p].pc) then ExitStep(s, p)
    else WaitStep(s, p)
  }

  predicate HoldsWait(pc: Pc) {
    || pc.Reparent? || pc.WakeInit? || pc.WakeParent? || pc.BecomeZombie? || pc.ExitDropWait?
    || pc.WaitScan? || pc.WaitDecide? || pc.WaitTakeP? || pc.WaitDropLk?
  }

  predicate HoldsOwn(pc: Pc) {
    pc.ExitDropWait? || pc.ExitSwitch? || pc.WaitDropLk? || pc.WaitMark? || pc.WaitWoken?
  }

  predicate HoldsNothing(pc: Pc) {
    pc.User? || pc.ForkParent? || pc.ForkRun? || pc.ExitStart? || pc.WaitStart?
  }

  /** On a CPU: running, or finishing exit as a zombie. */
  predicate OnCpu(q: Proc) {
    q.state.RUNNING? || (q.state.ZOMBIE? && (q.pc.ExitDropWait? || q.pc.ExitSwitch?))
  }

  function Next(s: State, e: Event): Option<State>
    requires Bounds(s)
  {
    if e.p >= |s.procs| then None
    else
      var p := e.p;
      var me := s.procs[p];
      match e
      case Fork(_, np) =>
        if me.state.RUNNING? && me.pc.User? && np < |s.procs| && s.procs[np].state.UNUSED? &&
            s.procs[np].lock.None? then
          Some(SetPc(SetProc(s, np, Proc(USED, None, None, s.procs[np].killed, Some(p), User)), p, ForkCopy(np)))
        else None
      case ForkFail(_) =>
        if me.state.RUNNING? && me.pc.ForkCopy? then
          Some(SetPc(SetProc(s, me.pc.np, Freed(s.procs[me.pc.np])), p, User))
        else None
      case Exit(_) =>
        if me.state.RUNNING? && me.pc.User? && p != INIT then Some(SetPc(s, p, ExitStart)) else None
      case Wait(_) =>
        if me.state.RUNNING? && me.pc.User? then Some(SetPc(s, p, WaitStart)) else None
      case WaitFail(_) =>
        if me.state.RUNNING? && me.pc.WaitScan? && me.pc.i < |s.procs| && s.procs[me.pc.i].parent == Some(p)
           && s.procs[me.pc.i].lock.None? && s.procs[me.pc.i].state.ZOMBIE? then
          Some(SetPc(s.(waitLock := None), p, User))
        else None
      case Run(_) =>
        if OnCpu(me) then RunStep(s, p) else None
      case Kill(_) =>
        if me.lock.None? then
          Some(SetProc(s, p, me.(killed := true, state := if me.state.SLEEPING? then RUNNABLE else me.state)))
        else None
      case Block(_) =>
        if me.state.RUNNING? && me.pc.User? && me.lock.None? then
          Some(SetProc(s, p, me.(state := SLEEPING, chan := Some(Elsewhere), pc := Blocked)))
        else None
      case Unblock(_) =>
        if me.state.SLEEPING? && me.chan == Some(Elsewhere) && me.lock.None? then
          Some(SetProc(s, p, me.(state := RUNNABLE)))
        else None
      case Dispatch(_) =>
        if me.state.RUNNABLE? && me.lock.None? then
          if me.pc.WaitAsleep? then Some(SetProc(s, p, me.(state := RUNNING, lock := Some(p), pc := WaitWoken)))
          else if me.pc.Blocked? then Some(SetProc(s, p, me.(state := RUNNING, chan := None, pc := User)))
          else Some(SetProc(s, p, me.(state := RUNNING)))
        else None
      case Yield(_) =>
        if me.state.RUNNING? && me.lock.None? && HoldsNothing(me.pc) then
          Some(SetProc(s, p, me.(state := RUNNABLE)))
        else None
  }

  function Exec(s: State, es: seq<Event>): Option<State>
    requires Bounds(s)
    decreases |es|
  {
    if es == [] then Some(s)
    else
      match Exec(s, es[..|es| - 1])
      case None => None
      case Some(mid) => if Bounds(mid) then Next(mid, es[|es| - 1]) else None
  }

  // ---- what every step keeps ----

  ghost predicate WaitOwned(s: State) {
    && (s.waitLock.Some? ==> s.waitLock.value < |s.procs|)
    && (forall p :: 0 <= p < |s.procs| ==> (s.waitLock == Some(p) <==> HoldsWait(s.procs[p].pc)))
  }

  /** p->lock is held by p inside exit and sleep, and by the process forking p. */
  ghost predicate LockOwned(s: State, p: Pid)
    requires p < |s.procs|
  {
    var q := s.procs[p];
    if HoldsOwn(q.pc) then q.lock == Some(p)
    else q.lock.Some? ==> q.state.USED? && q.lock.value < |s.procs| && s.procs[q.lock.value].pc == ForkCopy(p)
  }

  ghost predicate LocksOwned(s: State) {
    forall p :: 0 <= p < |s.procs| ==> LockOwned(s, p)
  }

  predicate StateFits(q: Proc, p: Pid) {
    match q.state
    case UNUSED => q.parent.None? && (q.pc.Gone? || q.pc.User?)
    case USED => q.pc.User?
    case SLEEPING => (q.pc.WaitAsleep? && q.chan == Some(OnProc(p))) || (q.pc.Blocked? && q.chan == Some(Elsewhere))
    case RUNNABLE => q.pc.WaitAsleep? || q.pc.Blocked? || HoldsNothing(q.pc)
    case RUNNING => !q.pc.WaitAsleep? && !q.pc.Blocked? && !q.pc.ExitDropWait? && !q.pc.ExitSwitch? && !q.pc.Gone?
    case ZOMBIE => q.pc.ExitDropWait? || q.pc.ExitSwitch? || q.pc.Gone?
  }

  ghost predicate States(s: State) {
    forall p :: 0 <= p < |s.procs| ==> StateFits(s.procs[p], p)
  }

  predicate Forks(pc: Pc, np: Pid) {
    (pc.ForkCopy? || pc.ForkParent? || pc.ForkRun?) && pc.np == np
  }

  /** What fork knows of the process it is making. */
  ghost predicate ForkFits(s: State, p: Pid, np: Pid)
    requires p < |s.procs| && np < |s.procs|
  {
    var pc := s.procs[p].pc;
    Forks(pc, np) ==>
      && np != p && s.procs[np].state.USED?
      && (pc.ForkCopy? ==> s.procs[np].lock == Some(p))
      && s.procs[np].parent == if pc.ForkRun? then Some(p) else None
  }

  ghost predicate ForksFit(s: State) {
    forall p, np :: 0 <= p < |s.procs| && 0 <= np < |s.procs| ==> ForkFits(s, p, np)
  }

  ghost predicate ForksApart(s: State) {
    forall p, q :: 0 <= p < |s.procs| && 0 <= q < |s.procs| ==> ForkApart(s, p, q)
  }

  predicate ForkApart(s: State, p: Pid, q: Pid)
    requires p < |s.procs| && q < |s.procs|
  {
    var pc := s.procs[p].pc;
    (pc.ForkCopy? || pc.ForkParent? || pc.ForkRun?) && Forks(s.procs[q].pc, pc.np) ==> p == q
  }

  predicate Alive(q: Proc) {
    q.state.SLEEPING? || q.state.RUNNABLE? || q.state.RUNNING?
  }

  ghost predicate InitLives(s: State) {
    INIT < |s.procs| && Alive(s.procs[INIT]) && s.procs[INIT].parent.None? && !Exiting(s.procs[INIT].pc)
  }

  /** Every parent pointer names another process, neither ZOMBIE nor UNUSED. */
  ghost predicate ParentsLive(s: State) {
    forall q :: 0 <= q < |s.procs| ==> ParentLives(s, q)
  }

  predicate ParentLives(s: State, q: Pid)
    requires q < |s.procs|
  {
    s.procs[q].parent.Some? ==>
      var p := s.procs[q].parent.value;
      p < |s.procs| && p != q && Alive(s.procs[p])
  }

  /** A process that has run has a parent, save initproc. */
  predicate ParentKnown(q: Proc, p: Pid) {
    (Alive(q) || q.state.ZOMBIE?) && p != INIT ==> q.parent.Some?
  }

  ghost predicate ParentsKnown(s: State) {
    forall p :: 0 <= p < |s.procs| ==> ParentKnown(s.procs[p], p)
  }

  /** How many of the processes, in order, are known not to be children of p any more. */
  function OrphansBelow(pc: Pc, n: nat): nat {
    match pc
    case Reparent(i) => i
    case WakeInit(i, _) => i + 1
    case WakeParent(_) => n
    case BecomeZombie => n
    case _ => 0
  }

  ghost predicate Orphaned(s: State) {
    forall p, q :: 0 <= p < |s.procs| && 0 <= q < |s.procs| ==> OrphanedAt(s, p, q)
  }

  predicate OrphanedAt(s: State, p: Pid, q: Pid)
    requires p < |s.procs| && q < |s.procs|
  {
    q < OrphansBelow(s.procs[p].pc, |s.procs|) ==> s.procs[q].parent != Some(p)
  }

  /** How many of the processes, in order, wait has looked at while holding wait_lock. */
  function ScannedBelow(pc: Pc, n: nat): nat {
    match pc
    case WaitScan(i, _) => i
    case WaitDecide(_) => n
    case WaitTakeP => n
    case WaitDropLk => n
    case _ => 0
  }

  predicate SawNoKids(pc: Pc) {
    (pc.WaitScan? || pc.WaitDecide?) && !pc.kids
  }

  /** A scanned child is not a zombie, and if none was counted there is none. */
  ghost predicate Scanned(s: State) {
    forall p, q :: 0 <= p < |s.procs| && 0 <= q < |s.procs| ==> ScannedAt(s, p, q)
  }

  predicate ScannedAt(s: State, p: Pid, q: Pid)
    requires p < |s.procs| && q < |s.procs|
  {
    q < ScannedBelow(s.procs[p].pc, |s.procs|) && s.procs[q].parent == Some(p) ==>
      !s.procs[q].state.ZOMBIE? && !SawNoKids(s.procs[p].pc)
  }

  /** Asleep in wait, or past the point at which it gave up wait_lock to fall asleep there. */
  predicate Sleepy(q: Proc, p: Pid) {
    q.pc.WaitMark? || (q.state.SLEEPING? && q.chan == Some(OnProc(p)))
  }

  /** An exiting process that has woken its parent keeps it awake until wait_lock is released. */
  ghost predicate ParentsTold(s: State) {
    forall q, p :: 0 <= q < |s.procs| && 0 <= p < |s.procs| ==> ToldAt(s, q, p)
  }

  predicate ToldAt(s: State, q: Pid, p: Pid)
    requires p < |s.procs| && q < |s.procs|
  {
    var pc := s.procs[q].pc;
    s.procs[q].parent == Some(p) && (pc.BecomeZombie? || (pc.WakeParent? && p < pc.j)) ==> !Sleepy(s.procs[p], p)
  }

  /** Some other process holds wait_lock inside reparent's wakeup and has not reached initproc yet. */
  ghost predicate InitBeingWoken(s: State) {
    && s.waitLock.Some? && s.waitLock.value < |s.procs|
    && s.procs[s.waitLock.value].pc.WakeInit? && s.procs[s.waitLock.value].pc.j <= INIT
  }

  /** No process is asleep in wait with a zombie child, save initproc about to be woken. */
  ghost predicate NoneMissed(s: State) {
    forall q, p :: 0 <= q < |s.procs| && 0 <= p < |s.procs| ==> NotMissedAt(s, q, p)
  }

  ghost predicate NotMissedAt(s: State, q: Pid, p: Pid)
    requires p < |s.procs| && q < |s.procs|
  {
    s.procs[q].parent == Some(p) && s.procs[q].state.ZOMBIE? && Sleepy(s.procs[p], p) ==> p == INIT && InitBeingWoken(s)
  }

  ghost predicate Inv(s: State) {
    && Bounds(s) && WaitOwned(s) && LocksOwned(s) && States(s) && ForksFit(s) && ForksApart(s)
    && InitLives(s) && ParentsLive(s) && ParentsKnown(s) && Orphaned(s) && Scanned(s) && ParentsTold(s) && NoneMissed(s)
  }

  lemma BoundsKeptFork(s: State, p: Pid, s': State)
    requires Bounds(s) && p < |s.procs| && ForkStep(s, p) == Some(s')
    ensures Bounds(s') && |s'.procs| == |s.procs|
  {
  }

  lemma BoundsKeptExit(s: State, p: Pid, s': State)
    requires Bounds(s) && p < |s.procs| && ExitStep(s, p) == Some(s')
    ensures Bounds(s') && |s'.procs| == |s.procs|
  {
  }

  lemma BoundsKeptWait(s: State, p: Pid, s': State)
    requires Bounds(s) && p < |s.procs| && WaitStep(s, p) == Some(s')
    ensures Bounds(s') && |s'.procs| == |s.procs|
  {
  }

  lemma BoundsKeptOther(s: State, e: Event, s': State)
    requires Bounds(s) && Next(s, e) == Some(s') && !e.Run?
    ensures Bounds(s') && |s'.procs| == |s.procs|
  {
  }

  lemma BoundsKept(s: State, e: Event, s': State)
    requires Bounds(s) && Next(s, e) == Some(s')
    ensures Bounds(s') && |s'.procs| == |s.procs| && e.p < |s.procs|
  {
    hide Bounds, ForkStep, ExitStep, WaitStep;
    if !e.Run? {
      BoundsKeptOther(s, e, s');
    } else if InFork(s.procs[e.p].pc) {
      BoundsKeptFork(s, e.p, s');
    } else if Exiting(s.procs[e.p].pc) {
      BoundsKeptExit(s, e.p, s');
    } else {
      BoundsKeptWait(s, e.p, s');
    }
  }

  // Each part of the invariant is checked for one process, or one pair, at a time. The facts
  // about the acting process and the processes looked at are what a step depends on.

  lemma WaitOwnedFork(s: State, p: Pid, s': State, x: Pid)
    requires Bounds(s) && p < |s.procs| && OnCpu(s.procs[p]) && ForkStep(s, p) == Some(s') && x < |s.procs|
    requires s.waitLock == Some(x) <==> HoldsWait(s.procs[x].pc)
    requires s.waitLock == Some(p) <==> HoldsWait(s.procs[p].pc)
    requires StateFits(s.procs[x], x) && StateFits(s.procs[p], p) && ForkFits(s, p, x)
    ensures |s'.procs| == |s.procs|
    ensures s'.waitLock == Some(x) <==> HoldsWait(s'.procs[x].pc)
    ensures s'.waitLock == s.waitLock || s'.waitLock.None? || s'.waitLock == Some(p)
  {
  }

  lemma WaitOwnedExit(s: State, p: Pid, s': State, x: Pid)
    requires Bounds(s) && p < |s.procs| && OnCpu(s.procs[p]) && ExitStep(s, p) == Some(s') && x < |s.procs|
    requires s.waitLock == Some(x) <==> HoldsWait(s.procs[x].pc)
    requires s.waitLock == Some(p) <==> HoldsWait(s.procs[p].pc)
    requires StateFits(s.procs[x], x) && StateFits(s.procs[p], p) && ForkFits(s, p, x)
    ensures |s'.procs| == |s.procs|
    ensures s'.waitLock == Some(x) <==> HoldsWait(s'.procs[x].pc)
    ensures s'.waitLock == s.waitLock || s'.waitLock.None? || s'.waitLock == Some(p)
  {
  }

  lemma WaitOwnedWait(s: State, p: Pid, s': State, x: Pid)
    requires Bounds(s) && p < |s.procs| && OnCpu(s.procs[p]) && WaitStep(s, p) == Some(s') && x < |s.procs|
    requires s.waitLock == Some(x) <==> HoldsWait(s.procs[x].pc)
    requires s.waitLock == Some(p) <==> HoldsWait(s.procs[p].pc)
    requires StateFits(s.procs[x], x) && StateFits(s.procs[p], p) && ForkFits(s, p, x)
    ensures |s'.procs| == |s.procs|
    ensures s'.waitLock == Some(x) <==> HoldsWait(s'.procs[x].pc)
    ensures s'.waitLock == s.waitLock || s'.waitLock.None? || s'.waitLock == Some(p)
  {
  }

  lemma WaitOwnedOther(s: State, e: Event, s': State, x: Pid)
    requires Bounds(s) && Next(s, e) == Some(s') && !e.Run? && x < |s.procs|
    requires s.waitLock == Some(x) <==> HoldsWait(s.procs[x].pc)
    requires s.waitLock == Some(e.p) <==> HoldsWait(s.procs[e.p].pc)
    requires StateFits(s.procs[x], x) && StateFits(s.procs[e.p], e.p) && ForkFits(s, e.p, x)
    ensures |s'.procs| == |s.procs|
    ensures s'.waitLock == Some(x) <==> HoldsWait(s'.procs[x].pc)
    ensures s'.waitLock == s.waitLock || s'.waitLock.None? || s'.waitLock == Some(e.p)
  {
  }

  lemma WaitOwnedAt(s: State, e: Event, s': State, x: Pid)
    requires Bounds(s) && Next(s, e) == Some(s') && x < |s.procs|
    requires s.waitLock == Some(x) <==> HoldsWait(s.procs[x].pc)
    requires s.waitLock == Some(e.p) <==> HoldsWait(s.procs[e.p].pc)
    requires StateFits(s.procs[x], x) && StateFits(s.procs[e.p], e.p) && ForkFits(s, e.p, x)
    ensures |s'.procs| == |s.procs|
    ensures s'.waitLock == Some(x) <==> HoldsWait(s'.procs[x].pc)
    ensures s'.waitLock == s.waitLock || s'.waitLock.None? || s'.waitLock == Some(e.p)
  {
    hide Bounds, States, StateFits, LockOwned, ForkFits, ForkApart, OrphanedAt, ScannedAt, ToldAt, NotMissedAt,
         ParentLives, HoldsWait, ForkStep, ExitStep, WaitStep;
    if !e.Run? {
      WaitOwnedOther(s, e, s', x);
    } else if InFork(s.procs[e.p].pc) {
      WaitOwnedFork(s, e.p, s', x);
    } else if Exiting(s.procs[e.p].pc) {
      WaitOwnedExit(s, e.p, s', x);
    } else {
      WaitOwnedWait(s, e.p, s', x);
    }
  }

  lemma StatesFork(s: State, p: Pid, s': State, x: Pid)
    requires Bounds(s) && p < |s.procs| && OnCpu(s.procs[p]) && ForkStep(s, p) == Some(s') && x < |s.procs|
    requires StateFits(s.procs[x], x) && StateFits(s.procs[p], p) && ForkFits(s, p, x) && LockOwned(s, x)
    ensures |s'.procs| == |s.procs|
    ensures StateFits(s'.procs[x], x)
  {
  }

  lemma StatesExit(s: State, p: Pid, s': State, x: Pid)
    requires Bounds(s) && p < |s.procs| && OnCpu(s.procs[p]) && ExitStep(s, p) == Some(s') && x < |s.procs|
    requires StateFits(s.procs[x], x) && StateFits(s.procs[p], p) && ForkFits(s, p, x) && LockOwned(s, x)
    ensures |s'.procs| == |s.procs|
    ensures StateFits(s'.procs[x], x)
  {
    hide Bounds;
    BoundsAt(s, p);
  }

  lemma StatesWait(s: State, p: Pid, s': State, x: Pid)
    requires Bounds(s) && p < |s.procs| && OnCpu(s.procs[p]) && WaitStep(s, p) == Some(s') && x < |s.procs|
    requires StateFits(s.procs[x], x) && StateFits(s.procs[p], p) && ForkFits(s, p, x) && LockOwned(s, x)
    ensures |s'.procs| == |s.procs|
    ensures StateFits(s'.procs[x], x)
  {
    hide Bounds;
    BoundsAt(s, p);
  }

  lemma StatesOther(s: State, e: Event, s': State, x: Pid)
    requires Bounds(s) && Next(s, e) == Some(s') && !e.Run? && x < |s.procs|
    requires StateFits(s.procs[x], x) && StateFits(s.procs[e.p], e.p) && ForkFits(s, e.p, x) && LockOwned(s, x)
    ensures |s'.procs| == |s.procs|
    ensures StateFits(s'.procs[x], x)
  {
  }

  lemma StatesAt(s: State, e: Event, s': State, x: Pid)
    requires Bounds(s) && Next(s, e) == Some(s') && x < |s.procs|
    requires StateFits(s.procs[x], x) && StateFits(s.procs[e.p], e.p) && ForkFits(s, e.p, x) && LockOwned(s, x)
    ensures |s'.procs| == |s.procs|
    ensures StateFits(s'.procs[x], x)
  {
    hide Bounds, States, StateFits, LockOwned, ForkFits, ForkApart, OrphanedAt, ScannedAt, ToldAt, NotMissedAt,
         ParentLives, HoldsWait, ForkStep, ExitStep, WaitStep;
    if !e.Run? {
      StatesOther(s, e, s', x);
    } else if InFork(s.procs[e.p].pc) {
      StatesFork(s, e.p, s', x);
    } else if Exiting(s.procs[e.p].pc) {
      StatesExit(s, e.p, s', x);
    } else {
      StatesWait(s, e.p, s', x);
    }
  }

  ghost predicate HolderFits(s: State, x: Pid)
    requires x < |s.procs|
  {
    s.procs[x].lock.Some? && s.procs[x].lock.value < |s.procs| ==>
      StateFits(s.procs[s.procs[x].lock.value], s.procs[x].lock.value)
  }

  lemma LocksOwnedFork(s: State, p: Pid, s': State, x: Pid)
    requires Bounds(s) && p < |s.procs| && OnCpu(s.procs[p]) && ForkStep(s, p) == Some(s') && x < |s.procs|
    requires StateFits(s.procs[x], x) && StateFits(s.procs[p], p) && HolderFits(s, x)
    requires ForkFits(s, p, x) && LockOwned(s, x) && LockOwned(s, p)
    ensures |s'.procs| == |s.procs|
    ensures LockOwned(s', x)
  {
  }

  lemma LocksOwnedExit(s: State, p: Pid, s': State, x: Pid)
    requires Bounds(s) && p < |s.procs| && OnCpu(s.procs[p]) && ExitStep(s, p) == Some(s') && x < |s.procs|
    requires StateFits(s.procs[x], x) && StateFits(s.procs[p], p) && HolderFits(s, x)
    requires ForkFits(s, p, x) && LockOwned(s, x) && LockOwned(s, p)
    ensures |s'.procs| == |s.procs|
    ensures LockOwned(s', x)
  {
    hide Bounds;
    BoundsAt(s, p);
  }

  lemma LocksOwnedWait(s: State, p: Pid, s': State, x: Pid)
    requires Bounds(s) && p < |s.procs| && OnCpu(s.procs[p]) && WaitStep(s, p) == Some(s') && x < |s.procs|
    requires StateFits(s.procs[x], x) && StateFits(s.procs[p], p) && HolderFits(s, x)
    requires ForkFits(s, p, x) && LockOwned(s, x) && LockOwned(s, p)
    ensures |s'.procs| == |s.procs|
    ensures LockOwned(s', x)
  {
  }

  lemma LocksOwnedOther(s: State, e: Event, s': State, x: Pid)
    requires Bounds(s) && Next(s, e) == Some(s') && !e.Run? && x < |s.procs|
    requires StateFits(s.procs[x], x) && StateFits(s.procs[e.p], e.p) && HolderFits(s, x)
    requires ForkFits(s, e.p, x) && LockOwned(s, x) && LockOwned(s, e.p)
    ensures |s'.procs| == |s.procs|
    ensures LockOwned(s', x)
  {
  }

  lemma LocksOwnedAt(s: State, e: Event, s': State, x: Pid)
    requires Bounds(s) && Next(s, e) == Some(s') && x < |s.procs|
    requires StateFits(s.procs[x], x) && StateFits(s.procs[e.p], e.p) && HolderFits(s, x)
    requires ForkFits(s, e.p, x) && LockOwned(s, x) && LockOwned(s, e.p)
    ensures |s'.procs| == |s.procs|
    ensures LockOwned(s', x)
  {
    hide Bounds, States, StateFits, LockOwned, ForkFits, ForkApart, OrphanedAt, ScannedAt, ToldAt, NotMissedAt,
         ParentLives, HoldsWait, ForkStep, ExitStep, WaitStep;
    if !e.Run? {
      LocksOwnedOther(s, e, s', x);
    } else if InFork(s.procs[e.p].pc) {
      LocksOwnedFork(s, e.p, s', x);
    } else if Exiting(s.procs[e.p].pc) {
      LocksOwnedExit(s, e.p, s', x);
    } else {
      LocksOwnedWait(s, e.p, s', x);
    }
  }

  // A step by process p changes p and at most one other process.

  /** p's step wakes process x: it is asleep in wait, and the wakeup loop has reached it. */
  predicate Wakes(me: Proc, was: Proc, x: Pid) {
    && was.state.SLEEPING? && was.lock.None?
    && (|| (me.pc.WakeInit? && me.pc.j == x && was.chan == Some(OnProc(INIT)))
        || (me.pc == WakeParent(x) && me.parent.Some? && was.chan == Some(OnProc(me.parent.value))))
  }

  /** What a step by p, in state me, may make of another process x. */
  predicate Moved(p: Pid, me: Proc, x: Pid, was: Proc, now: Proc, waitLock: Option<Pid>) {
    || now == was
    || (me.pc.User? && was.state.UNUSED? && now == Proc(USED, None, None, was.killed, Some(p), User))
    || (me.pc == ForkCopy(x) && (now == was.(lock := None) || now == Freed(was)))
    || (me.pc == ForkParent(x) && waitLock.None? && now == was.(parent := Some(p)))
    || (me.pc == ForkRun(x) && was.lock.None? && now == was.(state := RUNNABLE))
    || (me.pc == Reparent(x) && was.parent == Some(p) && now == was.(parent := Some(INIT)))
    || (Wakes(me, was, x) && now == was.(state := RUNNABLE))
    || (me.pc.WaitScan? && me.pc.i == x && was.parent == Some(p) && was.state.ZOMBIE? && was.lock.None? &&
       now == Freed(was))
  }

  lemma OthersFork(s: State, p: Pid, s': State, x: Pid)
    requires Bounds(s) && p < |s.procs| && OnCpu(s.procs[p]) && ForkStep(s, p) == Some(s') && x < |s.procs|
    requires x != p
    ensures |s'.procs| == |s.procs|
    ensures Moved(p, s.procs[p], x, s.procs[x], s'.procs[x], s.waitLock)
  {
  }

  lemma OthersExit(s: State, p: Pid, s': State, x: Pid)
    requires Bounds(s) && p < |s.procs| && OnCpu(s.procs[p]) && ExitStep(s, p) == Some(s') && x < |s.procs|
    requires x != p
    ensures |s'.procs| == |s.procs|
    ensures Moved(p, s.procs[p], x, s.procs[x], s'.procs[x], s.waitLock)
  {
  }

  lemma OthersWait(s: State, p: Pid, s': State, x: Pid)
    requires Bounds(s) && p < |s.procs| && OnCpu(s.procs[p]) && WaitStep(s, p) == Some(s') && x < |s.procs|
    requires x != p
    ensures |s'.procs| == |s.procs|
    ensures Moved(p, s.procs[p], x, s.procs[x], s'.procs[x], s.waitLock)
  {
  }

  lemma OthersOther(s: State, e: Event, s': State, x: Pid)
    requires Bounds(s) && Next(s, e) == Some(s') && !e.Run? && x < |s.procs|
    requires x != e.p
    ensures |s'.procs| == |s.procs|
    ensures Moved(e.p, s.procs[e.p], x, s.procs[x], s'.procs[x], s.waitLock)
  {
  }

  lemma OthersAt(s: State, e: Event, s': State, x: Pid)
    requires Bounds(s) && Next(s, e) == Some(s') && x < |s.procs|
    requires x != e.p
    ensures |s'.procs| == |s.procs|
    ensures Moved(e.p, s.procs[e.p], x, s.procs[x], s'.procs[x], s.waitLock)
  {
    hide Bounds, States, StateFits, LockOwned, ForkFits, ForkApart, OrphanedAt, ScannedAt, ToldAt, NotMissedAt,
         ParentLives, HoldsWait, ForkStep, ExitStep, WaitStep;
    if !e.Run? {
      OthersOther(s, e, s', x);
    } else if InFork(s.procs[e.p].pc) {
      OthersFork(s, e.p, s', x);
    } else if Exiting(s.procs[e.p].pc) {
      OthersExit(s, e.p, s', x);
    } else {
      OthersWait(s, e.p, s', x);
    }
  }

  /** What a step by p makes of p. */
  predicate MovedItself(p: Pid, was: Proc, now: Proc) {
    && now.parent == was.parent
    && (Alive(was) ==> Alive(now) || was.pc.BecomeZombie?)
    && (now.state.ZOMBIE? ==> was.state.ZOMBIE? || was.pc.BecomeZombie?)
    && (was.state.USED? ==> now.state.USED?)
    && (Sleepy(now, p) ==> Sleepy(was, p) || was.pc.WaitDropLk?)
  }

  lemma ItselfFork(s: State, p: Pid, s': State)
    requires Bounds(s) && p < |s.procs| && OnCpu(s.procs[p]) && ForkStep(s, p) == Some(s')
    requires ForkFits(s, p, p) && ParentLives(s, p) && StateFits(s.procs[p], p)
    ensures |s'.procs| == |s.procs|
    ensures MovedItself(p, s.procs[p], s'.procs[p])
  {
  }

  lemma ItselfExit(s: State, p: Pid, s': State)
    requires Bounds(s) && p < |s.procs| && OnCpu(s.procs[p]) && ExitStep(s, p) == Some(s')
    requires ForkFits(s, p, p) && ParentLives(s, p) && StateFits(s.procs[p], p)
    ensures |s'.procs| == |s.procs|
    ensures MovedItself(p, s.procs[p], s'.procs[p])
  {
  }

  lemma ItselfWait(s: State, p: Pid, s': State)
    requires Bounds(s) && p < |s.procs| && OnCpu(s.procs[p]) && WaitStep(s, p) == Some(s')
    requires ForkFits(s, p, p) && ParentLives(s, p) && StateFits(s.procs[p], p)
    ensures |s'.procs| == |s.procs|
    ensures MovedItself(p, s.procs[p], s'.procs[p])
  {
  }

  lemma ItselfOther(s: State, e: Event, s': State)
    requires Bounds(s) && Next(s, e) == Some(s') && !e.Run?
    requires ForkFits(s, e.p, e.p) && ParentLives(s, e.p) && StateFits(s.procs[e.p], e.p)
    ensures |s'.procs| == |s.procs|
    ensures MovedItself(e.p, s.procs[e.p], s'.procs[e.p])
  {
  }

  lemma ItselfAt(s: State, e: Event, s': State)
    requires Bounds(s) && Next(s, e) == Some(s')
    requires ForkFits(s, e.p, e.p) && ParentLives(s, e.p) && StateFits(s.procs[e.p], e.p)
    ensures |s'.procs| == |s.procs|
    ensures MovedItself(e.p, s.procs[e.p], s'.procs[e.p])
  {
    hide Bounds, States, StateFits, LockOwned, ForkFits, ForkApart, OrphanedAt, ScannedAt, ToldAt, NotMissedAt,
         ParentLives, HoldsWait, ForkStep, ExitStep, WaitStep;
    if !e.Run? {
      ItselfOther(s, e, s');
    } else if InFork(s.procs[e.p].pc) {
      ItselfFork(s, e.p, s');
    } else if Exiting(s.procs[e.p].pc) {
      ItselfExit(s, e.p, s');
    } else {
      ItselfWait(s, e.p, s');
    }
  }

  lemma BoundsAt(s: State, p: Pid)
    requires Bounds(s) && p < |s.procs|
    ensures PcBounds(s.procs[p].pc, |s.procs|)
  {
  }

  lemma PcFrom(s: State, e: Event, s': State)
    requires Bounds(s) && Next(s, e) == Some(s') && ForkFits(s, e.p, e.p) && ParentLives(s, e.p)
    ensures |s'.procs| == |s.procs|
    ensures InFork(s'.procs[e.p].pc) ==>
              s'.procs[e.p].pc == s.procs[e.p].pc || e.Fork? || (OnCpu(s.procs[e.p]) && ForkStep(s, e.p) == Some(s'))
    ensures Exiting(s'.procs[e.p].pc) ==>
              || s'.procs[e.p].pc == s.procs[e.p].pc || (e.Exit? && s'.procs[e.p].pc.ExitStart?)
              || (OnCpu(s.procs[e.p]) && ExitStep(s, e.p) == Some(s'))
    ensures ScannedBelow(s'.procs[e.p].pc, |s.procs|) > 0 ==>
              s'.procs[e.p].pc == s.procs[e.p].pc || (OnCpu(s.procs[e.p]) && WaitStep(s, e.p) == Some(s'))
  {
    hide Bounds, Next;
    BoundsKept(s, e, s');
    BoundsAt(s, e.p);
    ForkPcFrom(s, e, s');
    ExitPcFrom(s, e, s');
    WaitPcFrom(s, e, s');
  }

  lemma ForkPcFrom(s: State, e: Event, s': State)
    requires Bounds(s) && Bounds(s') && |s'.procs| == |s.procs| && Next(s, e) == Some(s') && ForkFits(s, e.p, e.p)
    ensures InFork(s'.procs[e.p].pc) ==>
              s'.procs[e.p].pc == s.procs[e.p].pc || e.Fork? || (OnCpu(s.procs[e.p]) && ForkStep(s, e.p) == Some(s'))
  {
  }

  lemma ExitPcFrom(s: State, e: Event, s': State)
    requires Bounds(s) && Bounds(s') && |s'.procs| == |s.procs| && Next(s, e) == Some(s') && ParentLives(s, e.p)
    ensures Exiting(s'.procs[e.p].pc) ==>
              || s'.procs[e.p].pc == s.procs[e.p].pc || (e.Exit? && s'.procs[e.p].pc.ExitStart?)
              || (OnCpu(s.procs[e.p]) && ExitStep(s, e.p) == Some(s'))
  {
  }

  lemma WaitPcFrom(s: State, e: Event, s': State)
    requires Bounds(s) && Bounds(s') && |s'.procs| == |s.procs| && Next(s, e) == Some(s')
    ensures ScannedBelow(s'.procs[e.p].pc, |s.procs|) > 0 ==>
              s'.procs[e.p].pc == s.procs[e.p].pc || (OnCpu(s.procs[e.p]) && WaitStep(s, e.p) == Some(s'))
  {
  }

  /** The invariant, for process x and for the pair x, y. */
  lemma At(s: State, x: Pid, y: Pid)
    requires Inv(s) && x < |s.procs| && y < |s.procs|
    ensures s.waitLock == Some(x) <==> HoldsWait(s.procs[x].pc)
    ensures StateFits(s.procs[x], x) && LockOwned(s, x) && ParentLives(s, x) && ParentKnown(s.procs[x], x)
    ensures ForkFits(s, x, y) && ForkApart(s, x, y) && OrphanedAt(s, x, y) && ScannedAt(s, x, y)
    ensures ToldAt(s, x, y) && NotMissedAt(s, x, y)
  {
    hide StateFits, LockOwned, ParentLives, ParentKnown, ForkFits, ForkApart, OrphanedAt, ScannedAt, ToldAt,
         NotMissedAt, Bounds, HoldsWait;
  }

  lemma Basics(s: State)
    requires Inv(s)
    ensures Bounds(s) && InitLives(s)
  {
  }

  lemma Moves(s: State, e: Event, s': State, x: Pid)
    requires Inv(s) && Next(s, e) == Some(s') && x < |s.procs|
    ensures Bounds(s') && |s'.procs| == |s.procs| && e.p < |s.procs|
    ensures x != e.p ==> Moved(e.p, s.procs[e.p], x, s.procs[x], s'.procs[x], s.waitLock)
    ensures x == e.p ==> MovedItself(x, s.procs[x], s'.procs[x])
  {
    hide StateFits, LockOwned, ParentLives, ParentKnown, ForkFits, ForkApart, OrphanedAt, ScannedAt, ToldAt,
         NotMissedAt, Bounds, HoldsWait, Next, Moved, MovedItself;
    BoundsKept(s, e, s');
    if x == e.p { At(s, x, x); ItselfAt(s, e, s'); } else { OthersAt(s, e, s', x); }
  }

  lemma OrphanedOwn(s: State, p: Pid, s': State, q: Pid)
    requires Bounds(s) && p < |s.procs| && q < |s.procs| && ExitStep(s, p) == Some(s')
    requires (Exiting(s.procs[p].pc) ==> p != INIT)
    requires OrphanedAt(s, p, q) && ParentLives(s, q) && StateFits(s.procs[p], p)
    ensures |s'.procs| == |s.procs| && OrphanedAt(s', p, q)
  {
    hide Bounds;
    BoundsAt(s, p);
  }

  lemma OrphanedMine(s: State, e: Event, s': State, q: Pid)
    requires Inv(s) && Next(s, e) == Some(s') && e.p < |s.procs| == |s'.procs| && q < |s.procs|
    ensures OrphanedAt(s', e.p, q)
  {
    hide StateFits, LockOwned, ForkFits, ForkApart, ScannedAt, ToldAt, NotMissedAt, Bounds, Next, ExitStep, ForkStep,
         WaitStep, Inv;
    Moves(s, e, s', e.p);
    Moves(s, e, s', q);
    At(s, e.p, q);
    At(s, q, e.p);
    At(s, e.p, e.p);
    Basics(s);
    PcFrom(s, e, s');
    if OnCpu(s.procs[e.p]) && ExitStep(s, e.p) == Some(s') { OrphanedOwn(s, e.p, s', q); }
  }

  lemma OrphanedTheirs(s: State, e: Event, s': State, p: Pid, q: Pid)
    requires Inv(s) && Next(s, e) == Some(s') && e.p < |s.procs| == |s'.procs| && p < |s.procs| && q < |s.procs|
    requires p != e.p
    ensures OrphanedAt(s', p, q)
  {
    hide StateFits, LockOwned, ForkFits, ForkApart, ScannedAt, ToldAt, NotMissedAt, Bounds, Next, ExitStep, ForkStep,
         WaitStep, Inv;
    Moves(s, e, s', p);
    Moves(s, e, s', q);
    At(s, p, q);
    At(s, q, p);
    Basics(s);
  }

  lemma OrphanedKept(s: State, e: Event, s': State, p: Pid, q: Pid)
    requires Inv(s) && Next(s, e) == Some(s') && p < |s.procs| && q < |s.procs|
    ensures |s'.procs| == |s.procs| && OrphanedAt(s', p, q)
  {
    hide StateFits, LockOwned, ForkFits, ForkApart, ScannedAt, ToldAt, NotMissedAt, Bounds, Next, ExitStep, ForkStep,
         WaitStep, Inv;
    Moves(s, e, s', p);
    Moves(s, e, s', q);
    if p == e.p { OrphanedMine(s, e, s', q); } else { OrphanedTheirs(s, e, s', p, q); }
  }

  lemma ScannedOwn(s: State, p: Pid, s': State, q: Pid)
    requires Bounds(s) && p < |s.procs| && q < |s.procs| && WaitStep(s, p) == Some(s')
    requires ScannedAt(s, p, q) && ParentLives(s, q) && StateFits(s.procs[p], p)
    ensures |s'.procs| == |s.procs| && ScannedAt(s', p, q)
  {
  }

  lemma ScannedKept(s: State, e: Event, s': State, p: Pid, q: Pid)
    requires Inv(s) && Next(s, e) == Some(s') && p < |s.procs| && q < |s.procs|
    ensures |s'.procs| == |s.procs| && ScannedAt(s', p, q)
  {
    hide StateFits, LockOwned, ForkFits, ForkApart, OrphanedAt, ToldAt, NotMissedAt, Bounds, Next, ExitStep, ForkStep,
         WaitStep, Inv;
    Moves(s, e, s', p);
    Moves(s, e, s', q);
    At(s, p, q);
    At(s, q, p);
    At(s, e.p, p);
    Basics(s);
    if p == e.p {
      PcFrom(s, e, s');
      if OnCpu(s.procs[p]) && WaitStep(s, p) == Some(s') { ScannedOwn(s, p, s', q); }
    }
  }

  lemma ToldOwn(s: State, q: Pid, s': State, p: Pid)
    requires Bounds(s) && p < |s.procs| && q < |s.procs| && p != q && OnCpu(s.procs[q]) && ExitStep(s, q) == Some(s')
    requires ToldAt(s, q, p) && LockOwned(s, p) && StateFits(s.procs[p], p) && ParentLives(s, q)
    ensures |s'.procs| == |s.procs| && ToldAt(s', q, p)
  {
    hide Bounds;
    BoundsAt(s, q);
  }

  lemma ToldKept(s: State, e: Event, s': State, q: Pid, p: Pid)
    requires Inv(s) && Next(s, e) == Some(s') && p < |s.procs| && q < |s.procs|
    ensures |s'.procs| == |s.procs| && ToldAt(s', q, p)
  {
    hide LockOwned, ForkApart, OrphanedAt, ScannedAt, NotMissedAt, Bounds, Next, ExitStep, ForkStep, WaitStep, Inv;
    Moves(s, e, s', p);
    Moves(s, e, s', q);
    At(s, q, p);
    At(s, p, q);
    At(s, e.p, q);
    Basics(s);
    if q == e.p {
      PcFrom(s, e, s');
      if p != q && OnCpu(s.procs[q]) && ExitStep(s, q) == Some(s') { ToldOwn(s, q, s', p); }
    }
  }

  /** reparent's pass of wakeup over initproc. */
  lemma InitWoken(s: State, h: Pid, s': State)
    requires Bounds(s) && h < |s.procs| && s.procs[h].pc.WakeInit? && s.procs[h].pc.j <= INIT && h != INIT
    requires ExitStep(s, h) == Some(s') && LockOwned(s, INIT) && StateFits(s.procs[INIT], INIT)
    ensures |s'.procs| == |s.procs| && !Sleepy(s'.procs[INIT], INIT)
  {
  }

  lemma InitStillBeingWoken(s: State, e: Event, s': State)
    requires Inv(s) && Next(s, e) == Some(s') && InitBeingWoken(s)
    ensures InitBeingWoken(s') || !Sleepy(s'.procs[INIT], INIT)
  {
    hide LockOwned, ForkApart, OrphanedAt, ScannedAt, ToldAt, NotMissedAt, Bounds, ExitStep, ForkStep, WaitStep, Inv,
         ParentLives, ForkFits;
    var h := s.waitLock.value;
    Basics(s);
    At(s, h, INIT);
    At(s, INIT, INIT);
    Moves(s, e, s', h);
    Moves(s, e, s', INIT);
    At(s, e.p, h);
    if e.Run? && h == e.p { InitWoken(s, h, s'); } else if e.p != h {
      WaitLockKept(s, e, s', h);
    }
  }

  lemma WaitLockKept(s: State, e: Event, s': State, h: Pid)
    requires Inv(s) && Next(s, e) == Some(s') && s.waitLock == Some(h) && e.p != h
    ensures s'.waitLock == Some(h)
  {
  }

  lemma HandedOver(s: State, e: Event, s': State, q: Pid)
    requires Bounds(s) && Next(s, e) == Some(s') && q < |s.procs| && q != e.p
    requires s.procs[q].parent != s'.procs[q].parent && s.procs[e.p].pc == Reparent(q) && s.waitLock == Some(e.p)
    ensures InitBeingWoken(s')
  {
    hide WaitStep, ForkStep;
  }

  lemma NotMissedKept(s: State, e: Event, s': State, q: Pid, p: Pid)
    requires Inv(s) && Next(s, e) == Some(s') && p < |s.procs| && q < |s.procs|
    ensures |s'.procs| == |s.procs| && NotMissedAt(s', q, p)
  {
    hide LockOwned, ForkApart, OrphanedAt, Bounds, Next, ExitStep, ForkStep, WaitStep, Inv;
    Moves(s, e, s', p);
    Moves(s, e, s', q);
    At(s, q, p);
    At(s, p, q);
    At(s, e.p, q);
    Basics(s);
    if InitBeingWoken(s) { InitStillBeingWoken(s, e, s'); }
    if q != e.p && s.procs[q].parent != s'.procs[q].parent && s.procs[e.p].pc == Reparent(q) {
      HandedOver(s, e, s', q);
    }
  }

  lemma ForkFitsOwn(s: State, p: Pid, s': State, np: Pid)
    requires Bounds(s) && p < |s.procs| && np < |s.procs| && ForkStep(s, p) == Some(s') && ForkFits(s, p, np)
    ensures |s'.procs| == |s.procs| && ForkFits(s', p, np)
  {
  }

  lemma ForkFitsBegin(s: State, e: Event, s': State, np: Pid)
    requires Bounds(s) && Next(s, e) == Some(s') && e.Fork? && np < |s.procs|
    ensures |s'.procs| == |s.procs| && ForkFits(s', e.p, np)
  {
  }

  lemma ForkFitsKept(s: State, e: Event, s': State, p: Pid, np: Pid)
    requires Inv(s) && Next(s, e) == Some(s') && p < |s.procs| && np < |s.procs|
    ensures |s'.procs| == |s.procs| && ForkFits(s', p, np)
  {
    hide LockOwned, OrphanedAt, ScannedAt, ToldAt, NotMissedAt, Bounds, Next, ExitStep, ForkStep, WaitStep, Inv;
    Moves(s, e, s', p);
    Moves(s, e, s', np);
    At(s, p, np);
    At(s, np, p);
    At(s, e.p, np);
    At(s, e.p, p);
    Basics(s);
    if p == e.p {
      PcFrom(s, e, s');
      if e.Fork? { ForkFitsBegin(s, e, s', np); }
      else if OnCpu(s.procs[p]) && ForkStep(s, p) == Some(s') { ForkFitsOwn(s, p, s', np); }
      else if InFork(s.procs[p].pc) && np != p { ForkWaits(s, e, s', np); }
    } else {
      LockKept(s, e, s', p, np);
    }
  }

  /** Nothing but its own steps takes a fork further. */
  lemma ForkWaits(s: State, e: Event, s': State, x: Pid)
    requires Bounds(s) && Next(s, e) == Some(s') && InFork(s.procs[e.p].pc) && x < |s.procs| && x != e.p
    requires !(OnCpu(s.procs[e.p]) && ForkStep(s, e.p) == Some(s'))
    ensures |s'.procs| == |s.procs|
    ensures s'.procs[x] == s.procs[x] || !InFork(s'.procs[e.p].pc)
  {
    hide ForkStep, ExitStep, WaitStep;
  }

  /** The lock fork holds on the new process is released by the forking process only. */
  lemma LockKept(s: State, e: Event, s': State, p: Pid, np: Pid)
    requires Inv(s) && Next(s, e) == Some(s') && p < |s.procs| && np < |s.procs| && p != e.p
    ensures |s'.procs| == |s.procs|
    ensures s.procs[p].pc == ForkCopy(np) ==> s'.procs[np].lock == Some(p)
  {
    hide OrphanedAt, ScannedAt, ToldAt, NotMissedAt, Bounds, ExitStep, ForkStep, WaitStep, Inv;
    Moves(s, e, s', np);
    At(s, p, np);
    At(s, np, np);
    At(s, e.p, p);
  }

  lemma ForkApartOwn(s: State, p: Pid, s': State, q: Pid)
    requires Bounds(s) && p < |s.procs| && q < |s.procs| && ForkStep(s, p) == Some(s') && p != q
    requires ForkApart(s, p, q) && ForkApart(s, q, p) && ForkFits(s, p, p) && ForkFits(s, p, q)
    requires StateFits(s.procs[q], q)
    ensures |s'.procs| == |s.procs| && ForkApart(s', p, q) && ForkApart(s', q, p)
  {
  }

  /** A process being made by one fork is not chosen by another. */
  lemma ForkApartBegin(s: State, e: Event, s': State, q: Pid)
    requires Inv(s) && Next(s, e) == Some(s') && e.Fork? && q < |s.procs|
    ensures |s'.procs| == |s.procs| && ForkApart(s', e.p, q) && ForkApart(s', q, e.p)
  {
    hide LockOwned, OrphanedAt, ScannedAt, ToldAt, NotMissedAt, Inv;
    Basics(s);
    At(s, q, q);
    At(s, q, e.np);
  }

  lemma ForkApartKept(s: State, e: Event, s': State, p: Pid, q: Pid)
    requires Inv(s) && Next(s, e) == Some(s') && p < |s.procs| && q < |s.procs|
    ensures |s'.procs| == |s.procs| && ForkApart(s', p, q)
  {
    hide LockOwned, OrphanedAt, ScannedAt, ToldAt, NotMissedAt, Bounds, Next, ExitStep, ForkStep, WaitStep, Inv;
    Moves(s, e, s', p);
    Moves(s, e, s', q);
    At(s, p, q);
    At(s, q, p);
    At(s, e.p, e.p);
    Basics(s);
    if p != q && (p == e.p || q == e.p) {
      PcFrom(s, e, s');
      var other := if p == e.p then q else p;
      At(s, e.p, other);
      At(s, other, e.p);
      if e.Fork? { ForkApartBegin(s, e, s', other); }
      else if OnCpu(s.procs[e.p]) && ForkStep(s, e.p) == Some(s') { ForkApartOwn(s, e.p, s', other); }
    }
  }

  lemma ParentLivesKept(s: State, e: Event, s': State, q: Pid)
    requires Inv(s) && Next(s, e) == Some(s') && q < |s.procs|
    ensures |s'.procs| == |s.procs| && ParentLives(s', q)
  {
    hide LockOwned, ForkApart, ScannedAt, ToldAt, NotMissedAt, Bounds, Next, ExitStep, ForkStep, WaitStep, Inv;
    Basics(s);
    Moves(s, e, s', q);
    Moves(s, e, s', e.p);
    Moves(s, e, s', INIT);
    At(s, e.p, q);
    At(s, q, e.p);
    At(s, e.p, INIT);
    if s.procs[q].parent.Some? {
      var p := s.procs[q].parent.value;
      At(s, q, p);
      At(s, p, q);
      At(s, e.p, p);
      Moves(s, e, s', p);
    }
    if q != e.p { AliveToParent(s, e, s', q); }
  }

  lemma ParentKnownKept(s: State, e: Event, s': State, q: Pid)
    requires Inv(s) && Next(s, e) == Some(s') && q < |s.procs|
    ensures |s'.procs| == |s.procs| && ParentKnown(s'.procs[q], q)
  {
    hide LockOwned, ForkApart, OrphanedAt, ScannedAt, ToldAt, NotMissedAt, Bounds, Next, ExitStep, ForkStep, WaitStep,
         Inv, ParentLives;
    Basics(s);
    Moves(s, e, s', q);
    At(s, q, q);
    At(s, e.p, q);
    if q == e.p { NotBornAlone(s, e, s'); }
  }

  /** A process starts to live by its parent's step only. */
  lemma NotBornAlone(s: State, e: Event, s': State)
    requires Inv(s) && Next(s, e) == Some(s')
    ensures |s'.procs| == |s.procs| && e.p < |s.procs|
    ensures Alive(s.procs[e.p]) || s.procs[e.p].state.ZOMBIE? || s'.procs[e.p].state == s.procs[e.p].state
  {
    hide LockOwned, ForkApart, OrphanedAt, ScannedAt, ToldAt, NotMissedAt, Bounds, ExitStep, ForkStep, WaitStep, Inv,
         ParentLives;
    Moves(s, e, s', e.p);
  }

  /** fork's parent is still running when it writes np->parent. */
  lemma AliveToParent(s: State, e: Event, s': State, q: Pid)
    requires Inv(s) && Next(s, e) == Some(s') && q < |s.procs| && q != e.p
    ensures |s'.procs| == |s.procs|
    ensures s.procs[e.p].pc == ForkParent(q) && s'.procs[q].parent != s.procs[q].parent ==> Alive(s'.procs[e.p])
  {
    hide LockOwned, ForkApart, ScannedAt, ToldAt, NotMissedAt, Bounds, ExitStep, ForkStep, WaitStep, Inv;
    Moves(s, e, s', q);
    Moves(s, e, s', e.p);
    At(s, e.p, q);
  }

  lemma InitNeverExits(s: State, e: Event, s': State)
    requires Inv(s) && Next(s, e) == Some(s')
    ensures |s'.procs| == |s.procs| && !Exiting(s'.procs[INIT].pc)
  {
    hide LockOwned, OrphanedAt, ScannedAt, ToldAt, NotMissedAt, Bounds, ExitStep, ForkStep, WaitStep, Inv;
    Basics(s);
    At(s, e.p, INIT);
    At(s, INIT, INIT);
    Moves(s, e, s', INIT);
    if e.p == INIT { PcFrom(s, e, s'); ExitStepOnlyExiting(s, INIT); }
  }

  lemma ExitStepOnlyExiting(s: State, p: Pid)
    requires Bounds(s) && p < |s.procs| && !Exiting(s.procs[p].pc)
    ensures ExitStep(s, p).None?
  {
  }

  lemma InitLivesKept(s: State, e: Event, s': State)
    requires Inv(s) && Next(s, e) == Some(s')
    ensures InitLives(s')
  {
    hide LockOwned, OrphanedAt, ScannedAt, ToldAt, NotMissedAt, Bounds, Next, ExitStep, ForkStep, WaitStep, Inv;
    Basics(s);
    At(s, INIT, INIT);
    Moves(s, e, s', INIT);
    At(s, e.p, INIT);
    InitNeverExits(s, e, s');
  }

  lemma OwnedKept(s: State, e: Event, s': State)
    requires Inv(s) && Next(s, e) == Some(s')
    ensures WaitOwned(s') && LocksOwned(s') && States(s')
  {
    hide HoldsWait, LockOwned, StateFits, ForkFits, ForkApart, ParentLives, ParentKnown, OrphanedAt, ScannedAt, ToldAt,
         NotMissedAt, Bounds, Next, ForkStep, ExitStep, WaitStep, Inv;
    Basics(s);
    BoundsKept(s, e, s');
    forall x | 0 <= x < |s'.procs|
      ensures s'.waitLock == Some(x) <==> HoldsWait(s'.procs[x].pc)
      ensures LockOwned(s', x) && StateFits(s'.procs[x], x)
    {
      OwnedKeptAt(s, e, s', x);
    }
    HolderInRange(s, e, s');
  }

  lemma HolderInRange(s: State, e: Event, s': State)
    requires Inv(s) && Next(s, e) == Some(s')
    ensures s'.waitLock.Some? ==> s'.waitLock.value < |s.procs|
  {
    hide HoldsWait, LockOwned, StateFits, ForkFits, ForkApart, ParentLives, ParentKnown, OrphanedAt, ScannedAt, ToldAt,
         NotMissedAt, Bounds, Next, ForkStep, ExitStep, WaitStep;
    BoundsKept(s, e, s');
    At(s, e.p, e.p);
    WaitOwnedAt(s, e, s', e.p);
  }

  lemma OwnedKeptAt(s: State, e: Event, s': State, x: Pid)
    requires Inv(s) && Next(s, e) == Some(s') && x < |s.procs|
    ensures |s'.procs| == |s.procs|
    ensures s'.waitLock == Some(x) <==> HoldsWait(s'.procs[x].pc)
    ensures LockOwned(s', x) && StateFits(s'.procs[x], x)
  {
    hide HoldsWait, LockOwned, StateFits, ForkFits, ForkApart, ParentLives, ParentKnown, OrphanedAt, ScannedAt, ToldAt,
         NotMissedAt, Bounds, Next, ForkStep, ExitStep, WaitStep;
    BoundsKept(s, e, s');
    At(s, x, x);
    At(s, e.p, x);
    At(s, e.p, e.p);
    if s.procs[x].lock.Some? && s.procs[x].lock.value < |s.procs| { At(s, s.procs[x].lock.value, x); }
    WaitOwnedAt(s, e, s', x);
    LocksOwnedAt(s, e, s', x);
    StatesAt(s, e, s', x);
  }

  lemma PairsKept(s: State, e: Event, s': State)
    requires Inv(s) && Next(s, e) == Some(s')
    ensures ForksFit(s') && ForksApart(s') && ParentsLive(s') && ParentsKnown(s') && Orphaned(s') && Scanned(s')
    ensures ParentsTold(s') && NoneMissed(s')
  {
    hide HoldsWait, LockOwned, StateFits, ForkFits, ForkApart, ParentLives, ParentKnown, OrphanedAt, ScannedAt, ToldAt,
         NotMissedAt, Bounds, Next, ForkStep, ExitStep, WaitStep, Inv;
    Basics(s);
    BoundsKept(s, e, s');
    forall p, q | 0 <= p < |s'.procs| && 0 <= q < |s'.procs|
      ensures ForkFits(s', p, q) && ForkApart(s', p, q) && OrphanedAt(s', p, q) && ScannedAt(s', p, q)
      ensures ToldAt(s', p, q) && NotMissedAt(s', p, q)
    {
      ForkFitsKept(s, e, s', p, q);
      ForkApartKept(s, e, s', p, q);
      OrphanedKept(s, e, s', p, q);
      ScannedKept(s, e, s', p, q);
      ToldKept(s, e, s', p, q);
      NotMissedKept(s, e, s', p, q);
    }
    forall q | 0 <= q < |s'.procs| ensures ParentLives(s', q) && ParentKnown(s'.procs[q], q) {
      ParentLivesKept(s, e, s', q);
      ParentKnownKept(s, e, s', q);
    }
  }

  lemma StepInv(s: State, e: Event, s': State)
    requires Inv(s) && Next(s, e) == Some(s')
    ensures Inv(s')
  {
    hide WaitOwned, LocksOwned, States, ForksFit, ForksApart, ParentsLive, ParentsKnown, Orphaned, Scanned, ParentsTold,
         NoneMissed, InitLives, Bounds, Next;
    BoundsKept(s, e, s');
    OwnedKept(s, e, s');
    PairsKept(s, e, s');
    InitLivesKept(s, e, s');
  }

  /** After userinit: only initproc exists, and no lock is held. */
  predicate Initial(s: State) {
    && |s.procs| > INIT && s.waitLock.None?
    && s.procs[INIT] == Proc(RUNNABLE, None, None, false, None, User)
    && (forall p :: 0 <= p < |s.procs| && p != INIT ==> s.procs[p] == Proc(UNUSED, None, None, false, None, User))
  }

  lemma InitialInv(s: State)
    requires Initial(s)
    ensures Inv(s)
  {
    assert forall p :: 0 <= p < |s.procs| ==> s.procs[p].pc.User? && s.procs[p].parent.None?;
  }

  lemma {:induction false} RunInv(s: State, es: seq<Event>)
    requires Initial(s)
    ensures Bounds(s) && (Exec(s, es).Some? ==> Inv(Exec(s, es).value))
    decreases |es|
  {
    hide Inv, Next, Initial;
    InitialInv(s);
    Basics(s);
    if es != [] && Exec(s, es).Some? {
      RunInv(s, es[..|es| - 1]);
      StepInv(Exec(s, es[..|es| - 1]).value, es[|es| - 1], Exec(s, es).value);
    }
  }

  // ---- what follows for every run ----

  /** p is inside wait, in sleep, and will not look at its children again until it is woken. */
  predicate AsleepInWait(s: State, p: Pid)
    requires p < |s.procs|
  {
    s.procs[p].state.SLEEPING? && s.procs[p].pc.WaitAsleep?
  }

  /**
  Whenever wait_lock is free, every zombie has a parent, and that parent is neither asleep in wait
  nor committed to falling asleep there.
  */
  lemma NoMissedChild(s: State, es: seq<Event>, q: Pid)
    requires Initial(s) && Bounds(s) && Exec(s, es).Some?
    requires var t := Exec(s, es).value; t.waitLock.None? && q < |t.procs| && t.procs[q].state.ZOMBIE?
    ensures var t := Exec(s, es).value; var p := t.procs[q].parent;
      p.Some? && p.value < |t.procs| && p.value != q && !AsleepInWait(t, p.value) && !t.procs[p.value].pc.WaitMark?
  {
    hide Inv, Next, Initial, Exec, Bounds, LockOwned, ForkFits, ForkApart, OrphanedAt, ScannedAt, ToldAt;
    var t := Exec(s, es).value;
    RunInv(s, es);
    Basics(t);
    At(t, q, q);
    At(t, q, t.procs[q].parent.value);
    At(t, t.procs[q].parent.value, q);
  }

  /** Every parent pointer names another process that is neither ZOMBIE nor UNUSED nor half made. */
  lemma ParentsNeverDead(s: State, es: seq<Event>, q: Pid)
    requires Initial(s) && Bounds(s) && Exec(s, es).Some?
    requires q < |Exec(s, es).value.procs| && Exec(s, es).value.procs[q].parent.Some?
    ensures var t := Exec(s, es).value; var p := t.procs[q].parent.value;
      p < |t.procs| && p != q && (t.procs[p].state.SLEEPING? || t.procs[p].state.RUNNABLE? || t.procs[p].state.RUNNING?)
  {
    hide Inv, Next, Initial, Exec, Bounds;
    RunInv(s, es);
    At(Exec(s, es).value, q, q);
  }

  /**
  wait takes a process away (kstack, page table and slot) only when that process has switched off
  its kernel stack for good, and it takes only its own child.
  */
  lemma ReapedIsGone(s: State, es: seq<Event>, e: Event, q: Pid)
    requires Initial(s) && Bounds(s) && Exec(s, es).Some? && Bounds(Exec(s, es).value)
    requires Next(Exec(s, es).value, e).Some? && q < |Exec(s, es).value.procs| && q != e.p
    requires Exec(s, es).value.procs[q].state.ZOMBIE?
    requires var t' := Next(Exec(s, es).value, e).value; q < |t'.procs| && t'.procs[q].state.UNUSED?
    ensures var t := Exec(s, es).value; t.procs[q].pc.Gone? && t.procs[q].parent == Some(e.p)
  {
    hide Inv, Next, Initial, Exec, Bounds, ForkApart, OrphanedAt, ScannedAt, ToldAt, NotMissedAt;
    var t := Exec(s, es).value;
    RunInv(s, es);
    Basics(t);
    BoundsKept(t, e, Next(t, e).value);
    At(t, e.p, q);
    At(t, q, q);
    Moves(t, e, Next(t, e).value, q);
  }

  // ---- kills that hit nobody ----

  /** kill(0) has marked slot q while it was unused, and no fork has taken the slot since. */
  ghost predicate Stray(s0: State, es: seq<Event>, q: Pid)
    requires Bounds(s0)
  {
    exists k :: 0 <= k < |es| && StrayAt(s0, es, q, k)
  }

  ghost predicate StrayAt(s0: State, es: seq<Event>, q: Pid, k: nat)
    requires Bounds(s0) && k < |es|
  {
    es[k] == Kill(q) && UnusedIn(Exec(s0, es[..k]), q) && forall j :: k < j < |es| ==> !Takes(es[j], q)
  }

  predicate UnusedIn(s: Option<State>, q: Pid) {
    s.Some? && q < |s.value.procs| && s.value.procs[q].state.UNUSED?
  }

  predicate Takes(e: Event, q: Pid) {
    e.Fork? && e.np == q
  }

  predicate Marked(s: State, q: Pid) {
    q < |s.procs| && s.procs[q].state.UNUSED? && s.procs[q].killed
  }

  /** One event more. */
  lemma StrayMore(s0: State, es: seq<Event>, q: Pid)
    requires Bounds(s0) && es != []
    ensures var front, e := es[..|es| - 1], es[|es| - 1];
            Stray(s0, es, q) <==>
            (e == Kill(q) && UnusedIn(Exec(s0, front), q)) || (Stray(s0, front, q) && !Takes(e, q))
  {
    hide Exec, UnusedIn;
    var n := |es| - 1;
    var front, e := es[..n], es[n];
    if Stray(s0, es, q) {
      var k :| 0 <= k < |es| && StrayAt(s0, es, q, k);
      if k < n {
        assert front[..k] == es[..k];
        assert StrayAt(s0, front, q, k);
      }
    }
    if Stray(s0, front, q) && !Takes(e, q) {
      var k :| 0 <= k < n && StrayAt(s0, front, q, k);
      assert front[..k] == es[..k];
      assert StrayAt(s0, es, q, k);
    }
    if e == Kill(q) && UnusedIn(Exec(s0, front), q) { assert StrayAt(s0, es, q, n); }
  }

  /** What a step makes of the mark on its own process, */
  lemma MarkedMine(s: State, e: Event, s': State)
    requires Bounds(s) && Next(s, e) == Some(s') && |s'.procs| == |s.procs| && StateFits(s.procs[e.p], e.p)
    requires ForkFits(s, e.p, e.p) && ParentLives(s, e.p)
    ensures Marked(s', e.p) <==>
            (e.Kill? && s.procs[e.p].state.UNUSED?) || (Marked(s, e.p) && !Takes(e, e.p))
  {
    if e.Run? {
      hide Takes;
      assert !s.procs[e.p].state.UNUSED?;
      RunsOn(s, e.p, s');
    }
  }

  /** Code that runs does not free its own slot. */
  lemma RunsOn(s: State, p: Pid, s': State)
    requires Bounds(s) && p < |s.procs| && OnCpu(s.procs[p]) && RunStep(s, p) == Some(s')
    requires StateFits(s.procs[p], p) && ForkFits(s, p, p) && ParentLives(s, p)
    ensures p < |s'.procs| && !s'.procs[p].state.UNUSED?
  {
    hide Bounds, StateFits, ForkFits, ParentLives, OnCpu, ForkStep, ExitStep, WaitStep, InFork, Exiting;
    if InFork(s.procs[p].pc) {
      RunsOnFork(s, p, s');
    } else if Exiting(s.procs[p].pc) {
      RunsOnExit(s, p, s');
    } else {
      RunsOnWait(s, p, s');
    }
  }

  lemma RunsOnFork(s: State, p: Pid, s': State)
    requires Bounds(s) && p < |s.procs| && OnCpu(s.procs[p]) && ForkStep(s, p) == Some(s')
    requires StateFits(s.procs[p], p) && ForkFits(s, p, p) && ParentLives(s, p)
    ensures p < |s'.procs| && !s'.procs[p].state.UNUSED?
  {
    hide Bounds;
    BoundsAt(s, p);
  }

  lemma RunsOnExit(s: State, p: Pid, s': State)
    requires Bounds(s) && p < |s.procs| && OnCpu(s.procs[p]) && ExitStep(s, p) == Some(s')
    requires StateFits(s.procs[p], p) && ForkFits(s, p, p) && ParentLives(s, p)
    ensures p < |s'.procs| && !s'.procs[p].state.UNUSED?
  {
    hide Bounds;
    BoundsAt(s, p);
  }

  lemma RunsOnWait(s: State, p: Pid, s': State)
    requires Bounds(s) && p < |s.procs| && OnCpu(s.procs[p]) && WaitStep(s, p) == Some(s')
    requires StateFits(s.procs[p], p) && ForkFits(s, p, p) && ParentLives(s, p)
    ensures p < |s'.procs| && !s'.procs[p].state.UNUSED?
  {
    hide Bounds;
    BoundsAt(s, p);
  }

  /** and of that on another. */
  lemma MarkedOther(s: State, e: Event, s': State, q: Pid)
    requires Bounds(s) && Next(s, e) == Some(s') && |s'.procs| == |s.procs| && q < |s.procs| && q != e.p
    requires Moved(e.p, s.procs[e.p], q, s.procs[q], s'.procs[q], s.waitLock)
    requires ForkFits(s, e.p, q)
    ensures Marked(s', q) <==> Marked(s, q) && !Takes(e, q)
  {
  }

  /** A slot is marked exactly if a kill was stray. */
  lemma {:induction false} MarkedIffStray(s0: State, es: seq<Event>, q: Pid)
    requires Bounds(s0) && Initial(s0) && Exec(s0, es).Some? && q < |s0.procs|
    ensures |Exec(s0, es).value.procs| == |s0.procs|
    ensures Marked(Exec(s0, es).value, q) <==> Stray(s0, es, q)
    decreases |es|
  {
    hide Next, Inv, Bounds, MovedItself, Moved, Wakes, Stray, Marked, ForkFits, ForkApart, OrphanedAt, ScannedAt,
         ToldAt, NotMissedAt, ParentLives, StateFits, LockOwned, Takes;
    if es == [] {
      NothingMarked(s0, q);
    } else {
      var front, e := es[..|es| - 1], es[|es| - 1];
      var s, s' := Exec(s0, front).value, Exec(s0, es).value;
      MarkedIffStray(s0, front, q);
      RunInv(s0, front);
      Moves(s, e, s', q);
      At(s, e.p, q);
      At(s, e.p, e.p);
      StrayMore(s0, es, q);
      Basics(s);
      if q == e.p { MarkedMine(s, e, s'); } else { MarkedOther(s, e, s', q); }
    }
  }

  lemma NothingMarked(s0: State, q: Pid)
    requires Bounds(s0) && Initial(s0)
    ensures !Marked(s0, q) && !Stray(s0, [], q)
  {
  }

  /**
  A child is killed from birth if and only if kill(0) has hit its slot since the slot was last taken: allocproc
  does not take the mark away, and nothing else leaves one on a slot that is not in use.
  */
  lemma BornKilledIff(s0: State, es: seq<Event>, p: Pid, np: Pid)
    requires Bounds(s0) && Initial(s0) && Exec(s0, es).Some? && Bounds(Exec(s0, es).value)
    requires Next(Exec(s0, es).value, Fork(p, np)).Some?
    ensures var t := Next(Exec(s0, es).value, Fork(p, np)).value;
            np < |t.procs| && t.procs[np].state.USED? && (t.procs[np].killed <==> Stray(s0, es, np))
  {
    hide Exec, Initial, Stray;
    MarkedSize(s0, es);
    MarkedIffStray(s0, es, np);
  }

  lemma MarkedSize(s0: State, es: seq<Event>)
    requires Bounds(s0) && Initial(s0) && Exec(s0, es).Some?
    ensures |Exec(s0, es).value.procs| == |s0.procs|
  {
    MarkedIffStray(s0, es, INIT);
  }

  /** No kill has hit an unused slot. */
  ghost predicate NoStrayKill(s: State, es: seq<Event>)
    requires Bounds(s)
  {
    forall k :: 0 <= k < |es| && es[k].Kill? ==> !UnusedIn(Exec(s, es[..k]), es[k].p)
  }

  /** Without such a kill at all, no child is ever born killed. */
  lemma NobodyBornKilled(s0: State, es: seq<Event>, p: Pid, np: Pid)
    requires Bounds(s0) && Initial(s0) && NoStrayKill(s0, es) && Exec(s0, es).Some? && Bounds(Exec(s0, es).value)
    requires Next(Exec(s0, es).value, Fork(p, np)).Some?
    ensures var t := Next(Exec(s0, es).value, Fork(p, np)).value; np < |t.procs| && !t.procs[np].killed
  {
    hide Next, Exec, UnusedIn;
    BornKilledIff(s0, es, p, np);
  }

  /** The scheduler runs init; kill(0) finds slot 1, which is unused; and init forks. */
  const STRAY_KILL: seq<Event> := [Dispatch(INIT), Kill(1), Fork(INIT, 1)]

  /** From boot: a child that nobody ever killed is killed. */
  lemma KilledBeforeBirth(s: State)
    requires Bounds(s) && Initial(s) && |s.procs| > 1
    ensures Exec(s, STRAY_KILL).Some?
    ensures var t := Exec(s, STRAY_KILL).value; |t.procs| > 1 && t.procs[1].state.USED? && t.procs[1].killed
  {
    var es := STRAY_KILL;
    assert es[..0] == [] && es[..1][..0] == [] && es[..2][..1] == es[..1] && es[..3][..2] == es[..2] && es[..3] == es;
    assert Exec(s, es[..1]) == Next(s, Dispatch(INIT));
    assert Exec(s, es[..2]) == Next(Exec(s, es[..1]).value, Kill(1));
    assert Exec(s, es[..3]) == Next(Exec(s, es[..2]).value, Fork(INIT, 1));
  }

  /** wait gives up with -1 only when the process was killed or has no child at all. */
  lemma WaitFailsOnlyAlone(s: State, es: seq<Event>, p: Pid, q: Pid)
    requires Initial(s) && Bounds(s) && Exec(s, es).Some? && Bounds(Exec(s, es).value)
    requires p < |Exec(s, es).value.procs| && q < |Exec(s, es).value.procs|
    requires var t := Exec(s, es).value;
      t.procs[p].state.RUNNING? && t.procs[p].pc.WaitDecide? && !t.procs[p].killed && Next(t, Run(p)).Some?
      && Next(t, Run(p)).value.procs[p].pc.User?
    ensures Exec(s, es).value.procs[q].parent != Some(p)
  {
    hide Inv, Initial, Exec, Bounds, ForkApart, OrphanedAt, ToldAt, NotMissedAt, ForkStep, ExitStep;
    RunInv(s, es);
    At(Exec(s, es).value, p, q);
  }

}
