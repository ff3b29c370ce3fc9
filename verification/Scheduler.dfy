/**
The PBS scheduler of kernel/proc.c. Proctable.Schedule is one pass of its loop over proc[] on a
quiet machine; SchedulerRaces interleaves the passes of any number of CPUs with the rest of the
kernel, with every p->lock explicit.
*/
module Priorities {
  import opened Procs
  import opened Wrappers

  type Pid = nat

  datatype Key = Key(dp: nat, numSch: nat, ctime: nat)

  const UINT: nat := 0x1_0000_0000

  /** a is to be run rather than b: lower dp, then fewer runs, then older. */
  predicate Beats(a: Key, b: Key) {
    a.dp < b.dp || (a.dp == b.dp && (a.numSch < b.numSch || (a.numSch == b.numSch && a.ctime < b.ctime)))
  }

  /** h is the process to run among those in seen: none beats it, and it beats those before it. */
  predicate Best(seen: map<Pid, Key>, h: Pid) {
    h in seen && forall q <- seen :: !Beats(seen[q], seen[h]) && (q < h ==> Beats(seen[h], seen[q]))
  }

  lemma BestIsUnique(seen: map<Pid, Key>, g: Pid, h: Pid)
    requires Best(seen, g) && Best(seen, h)
    ensures g == h
  {
    assert !Beats(seen[g], seen[h]) && !Beats(seen[h], seen[g]);
  }

  /** k beats everything in seen. */
  predicate Ahead(k: Key, seen: map<Pid, Key>) {
    forall q <- seen :: Beats(k, seen[q])
  }

  lemma AheadOfBest(seen: map<Pid, Key>, h: Pid, k: Key)
    requires Best(seen, h)
    ensures Ahead(k, seen) <==> Beats(k, seen[h])
  {
    if Beats(k, seen[h]) {
      forall q <- seen ensures Beats(k, seen[q]) { assert !Beats(seen[q], seen[h]); }
    }
  }

  /** Process i, seen after all of the others, is the best with them just if it beats them all, */
  lemma BestIfAhead(seen: map<Pid, Key>, i: Pid, k: Key)
    requires forall q <- seen :: q < i
    ensures Best(seen[i := k], i) <==> Ahead(k, seen)
  {
    var seen' := seen[i := k];
    if Best(seen', i) {
      forall q <- seen ensures Beats(k, seen[q]) { assert q in seen'; }
    }
    if Ahead(k, seen) {
      forall q <- seen' ensures !Beats(seen'[q], seen'[i]) && (q < i ==> Beats(seen'[i], seen'[q])) { }
    }
  }

  /** and h is just if it was before, and i does not beat it. */
  lemma BestStays(seen: map<Pid, Key>, h: Pid, i: Pid, k: Key)
    requires h in seen && forall q <- seen :: q < i
    ensures Best(seen[i := k], h) <==> Best(seen, h) && !Beats(k, seen[h])
  {
    var seen' := seen[i := k];
    if Best(seen', h) {
      assert i in seen';
      forall q <- seen ensures !Beats(seen[q], seen[h]) && (q < h ==> Beats(seen[h], seen[q])) { assert q in seen'; }
    }
  }

  lemma BestFirst(i: Pid, k: Key)
    ensures Best(map[][i := k], i)
  {
  }

  /** One more process seen, after all of the others. */
  lemma BestAdd(seen: map<Pid, Key>, h: Pid, i: Pid, k: Key)
    requires Best(seen, h) && forall q <- seen :: q < i
    ensures Best(seen[i := k], if Beats(k, seen[h]) then i else h)
  {
    var seen' := seen[i := k];
    var h' := if Beats(k, seen[h]) then i else h;
    forall q <- seen' ensures !Beats(seen'[q], seen'[h']) && (q < h' ==> Beats(seen'[h'], seen'[q])) {
      assert q in seen || q == i;
      if q in seen { assert !Beats(seen[q], seen[h]); }
    }
  }
}

/** One CPU's pass, with nothing else going on. */
module Proctable {
  import opened Procs
  import opened Wrappers
  import opened Priorities

  datatype Proc = Proc(state: ProcState, key: Key, rntime: nat, stime: nat, wtime: nat, locked: bool)

  /** The RUNNABLE processes among the first n. */
  function Runnable(procs: seq<Proc>, n: nat): (seen: map<Pid, Key>)
    requires n <= |procs|
  {
    map p: Pid | p < n && procs[p].state.RUNNABLE? :: procs[p].key
  }

  /** A process before and after the scheduler has picked it: the fields it sets, and those it leaves alone. */
  predicate Picked(was: Proc, now: Proc) {
    && now.state.RUNNING? && now.rntime == now.stime == 0 && now.locked
    && now.key.numSch == (was.key.numSch + 1) % UINT
    && now.key.dp == was.key.dp && now.key.ctime == was.key.ctime && now.wtime == was.wtime
  }

  predicate Free(procs: seq<Proc>) {
    forall p :: 0 <= p < |procs| ==> !procs[p].locked
  }

  lemma RunnableNext(procs: seq<Proc>, n: nat)
    requires n < |procs|
    ensures Runnable(procs, n + 1) ==
            if procs[n].state.RUNNABLE? then Runnable(procs, n)[n := procs[n].key] else Runnable(procs, n)
  {
  }

  lemma RunnableNone(procs: seq<Proc>)
    ensures Runnable(procs, 0) == map[]
  {
  }

  lemma RunnableBelow(procs: seq<Proc>, n: nat, h: Pid)
    requires n <= |procs| && Best(Runnable(procs, n), h)
    ensures forall q <- Runnable(procs, n) :: q < n
    ensures h < n && Runnable(procs, n)[h] == procs[h].key && h in Runnable(procs, n)
  {
  }

  class Table {
    var proc: array<Proc>

    constructor (p: array<Proc>)
      ensures proc == p
    {
      proc := p;
    }

    /**
    One pass: the best RUNNABLE process is marked RUNNING and is the only one whose lock is held;
    if there is none, nothing changes.
    */
    method Schedule() returns (highest: Option<Pid>)
      requires Free(proc[..])
      modifies proc
      ensures highest.None? ==> Runnable(old(proc[..]), proc.Length) == map[] && proc[..] == old(proc[..])
      ensures highest.Some? ==>
                && highest.value < proc.Length && Best(Runnable(old(proc[..]), proc.Length), highest.value)
                && proc[..] == old(proc[..])[highest.value := proc[highest.value]]
                && Picked(old(proc[..])[highest.value], proc[highest.value])
    {
      hide Best, Runnable;
      highest := None;
      var minDp := 100;
      var i := 0;
      ghost var was := proc[..];
      RunnableNone(was);
      while i < proc.Length
        invariant 0 <= i <= proc.Length
        invariant highest.None? ==> Runnable(was, i) == map[] && proc[..] == was
        invariant highest.Some? ==>
                    && highest.value < i && Best(Runnable(was, i), highest.value) && minDp == was[highest.value].key.dp
                    && proc[..] == was[highest.value := was[highest.value].(locked := true)]
      {
        assert proc[i] == was[i];
        RunnableNext(was, i);
        proc[i] := proc[i].(locked := true);
        if !proc[i].state.RUNNABLE? {
          proc[i] := proc[i].(locked := false);
        } else if highest.None? {
          BestFirst(i, was[i].key);
          highest, minDp := Some(i), proc[i].key.dp;
        } else {
          var h := highest.value;
          RunnableBelow(was, i, h);
          BestAdd(Runnable(was, i), h, i, was[i].key);
          if || proc[i].key.dp < minDp
             || (proc[i].key.dp == minDp && proc[i].key.numSch < proc[h].key.numSch)
             || (proc[i].key.dp == minDp && proc[i].key.numSch == proc[h].key.numSch &&
                proc[i].key.ctime < proc[h].key.ctime)
          {
            proc[h] := proc[h].(locked := false);
            highest, minDp := Some(i), proc[i].key.dp;
          } else {
            proc[i] := proc[i].(locked := false);
          }
        }
        i := i + 1;
      }
      if highest.Some? {
        var h := highest.value;
        proc[h] := proc[h].(state := RUNNING, rntime := 0, stime := 0,
                            key := proc[h].key.(numSch := (proc[h].key.numSch + 1) % UINT));
      }
    }
  }
}

/** Any number of CPUs scanning at once, the processes they run, and the rest of the kernel. */
module SchedulerRaces {
  import opened Procs
  import opened Wrappers
  import opened Priorities

  type CpuId = nat

  datatype Holder = ByCpu(c: CpuId) | ByProc | ByOther

  datatype Proc = Proc(state: ProcState, key: Key, lock: Option<Holder>)

  /**
  What a CPU knows of its pass: the best process so far, whose lock it holds, and all it saw. astray means that a
  look has been misled by a write to dp, and that no process taken since was ahead of all those before it.
  */
  datatype Pass = Pass(best: Option<Pid>, minDp: nat, seen: map<Pid, Key>, astray: bool)

  /**
  What one look reads from p->dp, in its three tests and to set min_dp. The first is what dp is when the look
  begins; clockintr may write in between.
  */
  datatype Reads = Reads(less: nat, same: nat, again: nat, last: nat) {
    predicate Agree() {
      less == same == again == last
    }
  }

  datatype Cpu =
    | Spin(i: nat, pass: Pass)  // acquire(&proc[i].lock), or past the last process
    | Look(i: nat, pass: Pass)  // holds proc[i].lock
    | Running(h: Pid)           // switched to proc[h]
    | Back(h: Pid)              // switched back, holding proc[h].lock

  datatype State = State(procs: seq<Proc>, cpus: seq<Cpu>)

  datatype Event =
    | Step(c: CpuId, got: Reads)              // the next step of CPU c in scheduler()
    | Release(c: CpuId)                      // the process CPU c runs releases its own lock
    | Acquire(c: CpuId)                      // and takes it again, to give up the CPU
    | Sched(c: CpuId, state: ProcState)      // and switches back
    | Take(p: Pid)                           // other kernel code takes p->lock
    | Write(p: Pid, state: ProcState, numSch: nat, ctime: nat)
    | Drop(p: Pid)
    | Tick(p: Pid, dp: nat)                  // clockintr writes p->dp, without the lock

  const NO_PASS := Pass(None, 100, map[], false)

  predicate Bounds(s: State) {
    forall c :: 0 <= c < |s.cpus| ==> CpuBounds(s.cpus[c], |s.procs|)
  }

  predicate CpuBounds(cpu: Cpu, n: nat) {
    match cpu
    case Spin(i, pass) => i <= n && (pass.best.Some? ==> pass.best.value < n)
    case Look(i, pass) => i < n && (pass.best.Some? ==> pass.best.value < n)
    case Running(h) => h < n
    case Back(h) => h < n
  }

  function SetLock(s: State, p: Pid, l: Option<Holder>): State
    requires p < |s.procs|
  {
    s.(procs := s.procs[p := s.procs[p].(lock := l)])
  }

  function SetCpu(s: State, c: CpuId, cpu: Cpu): State
    requires c < |s.cpus|
  {
    s.(cpus := s.cpus[c := cpu])
  }

  /** The code's test, p->dp being read anew each time. */
  predicate Taken(k: Key, dp: Reads, minDp: nat, high: Key) {
    || dp.less < minDp
    || (dp.same == minDp && k.numSch < high.numSch)
    || (dp.again == minDp && k.numSch == high.numSch && k.ctime < high.ctime)
  }

  /** The pass after a look at a RUNNABLE process i with key k; high is the key of the best so far. */
  function Looked(pass: Pass, i: nat, k: Key, dp: Reads, high: Key): Pass {
    var first, last := k.(dp := dp.less), k.(dp := dp.last);
    if pass.best.None? || Taken(k, dp, pass.minDp, high) then
      Pass(Some(i), dp.last, pass.seen[i := last], !Ahead(last, pass.seen))
    else
      pass.(seen := pass.seen[i := first], astray := pass.astray || Beats(first, high.(dp := pass.minDp)))
  }

  /** A look ends with dp as it was read last. */
  function LookStep(s: State, c: CpuId, i: nat, pass: Pass, dp: Reads): State
    requires c < |s.cpus| && i < |s.procs| && (pass.best.Some? ==> pass.best.value < |s.procs|)
  {
    var k := s.procs[i].key;
    var t := s.(procs := s.procs[i := s.procs[i].(key := k.(dp := dp.last))]);
    if !s.procs[i].state.RUNNABLE? then SetCpu(SetLock(t, i, None), c, Spin(i + 1, pass))
    else if pass.best.None? then SetCpu(t, c, Spin(i + 1, Looked(pass, i, k, dp, k)))
    else
      var h := pass.best.value;
      var high := s.procs[h].key;
      SetCpu(SetLock(t, if Taken(k, dp, pass.minDp, high) then h else i, None), c,
             Spin(i + 1, Looked(pass, i, k, dp, high)))
  }

  /** The pass is over: run the process chosen, if any. */
  function PickStep(s: State, c: CpuId, pass: Pass): State
    requires c < |s.cpus| && (pass.best.Some? ==> pass.best.value < |s.procs|)
  {
    if pass.best.None? then SetCpu(s, c, Spin(0, NO_PASS))
    else
      var h := pass.best.value;
      var p := s.procs[h];
      SetCpu(s.(procs := s.procs[h := Proc(RUNNING, p.key.(numSch := (p.key.numSch + 1) % UINT), Some(ByProc))]), c,
          Running(h))
  }

  /** None while the CPU spins on a lock, or has switched to a process. */
  function CpuStep(s: State, c: CpuId, dp: Reads): Option<State>
    requires Bounds(s) && c < |s.cpus|
  {
    match s.cpus[c]
    case Spin(i, pass) =>
      if i == |s.procs| then Some(PickStep(s, c, pass))
      else if s.procs[i].lock.None? then Some(SetCpu(SetLock(s, i, Some(ByCpu(c))), c, Look(i, pass)))
      else None
    case Look(i, pass) => if dp.less == s.procs[i].key.dp then Some(LookStep(s, c, i, pass, dp)) else None
    case Running(_) => None
    case Back(h) => Some(SetCpu(SetLock(s, h, None), c, Spin(0, NO_PASS)))
  }

  function ProcStep(s: State, e: Event): Option<State>
    requires Bounds(s) && (e.Release? || e.Acquire? || e.Sched?)
  {
    if e.c >= |s.cpus| || !s.cpus[e.c].Running? then None
    else
      var h := s.cpus[e.c].h;
      match e
      case Release(_) => if s.procs[h].lock == Some(ByProc) then Some(SetLock(s, h, None)) else None
      case Acquire(_) => if s.procs[h].lock.None? then Some(SetLock(s, h, Some(ByProc))) else None
      case Sched(c, state) =>
        if s.procs[h].lock == Some(ByProc) && !state.RUNNING? then
          Some(SetCpu(s.(procs := s.procs[h := Proc(state, s.procs[h].key, Some(ByCpu(c)))]), c, Back(h)))
        else None
  }

  function OtherStep(s: State, e: Event): Option<State>
    requires e.Take? || e.Write? || e.Drop? || e.Tick?
  {
    if e.p >= |s.procs| then None
    else
      var p := s.procs[e.p];
      match e
      case Take(_) => if p.lock.None? then Some(SetLock(s, e.p, Some(ByOther))) else None
      case Write(_, state, numSch, ctime) =>
        if p.lock == Some(ByOther) && (p.state.RUNNING? <==> state.RUNNING?) then
          Some(s.(procs := s.procs[e.p := p.(state := state, key := Key(p.key.dp, numSch, ctime))]))
        else None
      case Drop(_) => if p.lock == Some(ByOther) then Some(SetLock(s, e.p, None)) else None
      case Tick(_, dp) => Some(s.(procs := s.procs[e.p := p.(key := p.key.(dp := dp))]))
  }

  function Next(s: State, e: Event): Option<State>
    requires Bounds(s)
  {
    match e
    case Step(c, dp) => if c < |s.cpus| then CpuStep(s, c, dp) else None
    case Release(_) => ProcStep(s, e)
    case Acquire(_) => ProcStep(s, e)
    case Sched(_, _) => ProcStep(s, e)
    case _ => OtherStep(s, e)
  }

  function Exec(s: State, es: seq<Event>): Option<State>
    requires Bounds(s)
    decreases |es|
  {
    if es == [] then Some(s)
    else
      match Exec(s, es[..|es| - 1])
      case None => None
      case Some(mid) => if Bounds(mid) then Next(mid, es[|es| - 1]) else None
  }

  // ---- what every step keeps ----

  /** CPU c holds the lock of process p. */
  predicate Holds(cpu: Cpu, p: Pid) {
    match cpu
    case Spin(_, pass) => pass.best == Some(p)
    case Look(i, pass) => i == p || pass.best == Some(p)
    case Running(_) => false
    case Back(h) => h == p
  }

  /** A process's lock is held by exactly the CPUs that think so. */
  ghost predicate LockFits(s: State, c: CpuId, p: Pid)
    requires c < |s.cpus| && p < |s.procs|
  {
    s.procs[p].lock == Some(ByCpu(c)) <==> Holds(s.cpus[c], p)
  }

  /** The pass has seen processes below n only, and pass.best is the best of them just if it is not astray. */
  predicate PassFits(procs: seq<Proc>, n: nat, pass: Pass) {
    && (forall q <- pass.seen :: q < n)
    && (pass.best.None? ==> pass.seen == map[])
    && (pass.best.Some? ==>
          var h := pass.best.value;
          && h < |procs| && h in pass.seen && (pass.astray <==> !Best(pass.seen, h))
          && pass.minDp == pass.seen[h].dp && procs[h].state.RUNNABLE?
          && procs[h].key.numSch == pass.seen[h].numSch && procs[h].key.ctime == pass.seen[h].ctime)
  }

  ghost predicate CpuFits(procs: seq<Proc>, cpu: Cpu) {
    match cpu
    case Spin(i, pass) => PassFits(procs, i, pass)
    case Look(i, pass) => PassFits(procs, i, pass)
    case Running(h) => h < |procs| && procs[h].state.RUNNING?
    case Back(h) => true
  }

  ghost predicate RunsApart(s: State, c: CpuId, d: CpuId)
    requires c < |s.cpus| && d < |s.cpus|
  {
    s.cpus[c].Running? && s.cpus[d].Running? && s.cpus[c].h == s.cpus[d].h ==> c == d
  }

  predicate HolderKnown(p: Proc, m: nat) {
    && (p.lock.Some? && p.lock.value.ByCpu? ==> p.lock.value.c < m)
    && (p.lock == Some(ByProc) ==> p.state.RUNNING?)
  }

  /** A process that is RUNNING has a CPU. */
  ghost predicate OnSomeCpu(s: State, p: Pid)
    requires p < |s.procs|
  {
    s.procs[p].state.RUNNING? ==> exists c: CpuId :: c < |s.cpus| && s.cpus[c] == Running(p)
  }

  ghost predicate Inv(s: State) {
    && Bounds(s)
    && (forall c, p :: 0 <= c < |s.cpus| && 0 <= p < |s.procs| ==> LockFits(s, c, p))
    && (forall c :: 0 <= c < |s.cpus| ==> CpuFits(s.procs, s.cpus[c]))
    && (forall c, d :: 0 <= c < |s.cpus| && 0 <= d < |s.cpus| ==> RunsApart(s, c, d))
    && (forall p :: 0 <= p < |s.procs| ==> HolderKnown(s.procs[p], |s.cpus|) && OnSomeCpu(s, p))
  }

  lemma At(s: State, c: CpuId, d: CpuId, p: Pid)
    requires Inv(s) && c < |s.cpus| && d < |s.cpus| && p < |s.procs|
    ensures LockFits(s, c, p) && CpuFits(s.procs, s.cpus[c]) && RunsApart(s, c, d) && CpuBounds(s.cpus[c], |s.procs|)
    ensures HolderKnown(s.procs[p], |s.cpus|) && OnSomeCpu(s, p)
  {
    hide LockFits, CpuFits, RunsApart, HolderKnown, OnSomeCpu, CpuBounds;
  }

  lemma Bounded(s: State)
    requires Inv(s)
    ensures Bounds(s)
  {
  }

  lemma BoundsKept(s: State, e: Event, s': State)
    requires Bounds(s) && Next(s, e) == Some(s')
    ensures Bounds(s') && |s'.procs| == |s.procs| && |s'.cpus| == |s.cpus|
  {
  }

  predicate ByCpuEvent(e: Event) {
    e.Step? || e.Release? || e.Acquire? || e.Sched?
  }

  /** The CPU whose step it is, if any. */
  predicate Acts(e: Event, c: CpuId) {
    ByCpuEvent(e) && e.c == c
  }

  lemma OtherCpusKept(s: State, e: Event, s': State, d: CpuId)
    requires Bounds(s) && Next(s, e) == Some(s') && d < |s.cpus| && !Acts(e, d)
    ensures |s'.cpus| == |s.cpus| && s'.cpus[d] == s.cpus[d]
  {
  }

  /** What another's step may do to process p. */
  predicate Kept(was: Proc, now: Proc) {
    now.lock == was.lock && now.state == was.state && now.key.numSch == was.key.numSch && now.key.ctime == was.key.ctime
  }

  /** A process whose lock CPU d holds is changed by d alone, but for its dp. */
  lemma LockedIsStable(s: State, e: Event, s': State, d: CpuId, p: Pid)
    requires Inv(s) && Next(s, e) == Some(s') && d < |s.cpus| && !Acts(e, d) && p < |s.procs|
    requires s.procs[p].lock == Some(ByCpu(d))
    ensures |s'.procs| == |s.procs| && Kept(s.procs[p], s'.procs[p])
  {
    hide CpuFits, RunsApart, HolderKnown, OnSomeCpu, Inv;
    Bounded(s);
    if ByCpuEvent(e) { At(s, e.c, d, p); }
    At(s, d, d, p);
    RunningLock(s, p);
  }

  lemma RunningLock(s: State, p: Pid)
    requires Inv(s) && p < |s.procs|
    ensures s.procs[p].lock == Some(ByProc) ==> s.procs[p].state.RUNNING?
  {
  }

  /** A look lets go of the loser's lock and of no other. */
  lemma LookLocks(s: State, a: CpuId, dp: Reads, c: CpuId, p: Pid)
    requires Bounds(s) && a < |s.cpus| && s.cpus[a].Look? && c < |s.cpus| && p < |s.procs|
    requires LockFits(s, c, p) && LockFits(s, a, p) && LockFits(s, a, s.cpus[a].i)
    requires s.cpus[a].pass.best.Some? ==>
               s.cpus[a].pass.best.value < s.cpus[a].i && LockFits(s, a, s.cpus[a].pass.best.value)
    ensures var s' := LookStep(s, a, s.cpus[a].i, s.cpus[a].pass, dp);
            |s'.cpus| == |s.cpus| && |s'.procs| == |s.procs| && LockFits(s', c, p)
  {
    hide Ahead, Taken, Beats;
  }

  lemma LockFitsKept(s: State, e: Event, s': State, c: CpuId, p: Pid)
    requires Inv(s) && Next(s, e) == Some(s') && c < |s.cpus| && p < |s.procs|
    ensures |s'.cpus| == |s.cpus| && |s'.procs| == |s.procs| && LockFits(s', c, p)
  {
    hide RunsApart, OnSomeCpu, Inv, CpuFits, LookStep;
    Bounded(s);
    At(s, c, c, p);
    if ByCpuEvent(e) { At(s, e.c, c, p); PassBelow(s, e.c); }
    if e.Step? && s.cpus[e.c].Look? {
      if s.cpus[e.c].pass.best.Some? { At(s, e.c, c, s.cpus[e.c].pass.best.value); }
      At(s, e.c, c, s.cpus[e.c].i);
      LookLocks(s, e.c, e.got, c, p);
    }
  }

  /** The best process of a pass is behind it. */
  lemma PassBelow(s: State, c: CpuId)
    requires Inv(s) && c < |s.cpus|
    ensures s.cpus[c].Spin? || s.cpus[c].Look? ==> s.cpus[c].pass.best.Some? ==> s.cpus[c].pass.best.value < s.cpus[c].i
  {
    hide LockFits, RunsApart, HolderKnown, OnSomeCpu;
    assert CpuFits(s.procs, s.cpus[c]);
  }

  /** A look at a RUNNABLE process keeps track of whether the best is the best of what was seen. */
  lemma LookedFits(pass: Pass, i: nat, k: Key, dp: Reads, high: Key)
    requires forall q <- pass.seen :: q < i
    requires pass.best.None? ==> pass.seen == map[]
    requires pass.best.Some? ==>
               && pass.best.value in pass.seen && (pass.astray <==> !Best(pass.seen, pass.best.value))
               && pass.seen[pass.best.value] == high.(dp := pass.minDp)
    ensures var r := Looked(pass, i, k, dp, high);
            && r.best.Some? && r.best.value in r.seen && (forall q <- r.seen :: q < i + 1)
            && (r.astray <==> !Best(r.seen, r.best.value)) && r.seen[r.best.value].dp == r.minDp
            && r.seen[r.best.value] == (if r.best == Some(i) then k else high).(dp := r.minDp)
  {
    hide Best, Beats, Ahead, Taken;
    BestIfAhead(pass.seen, i, k.(dp := dp.last));
    if pass.best.Some? { BestStays(pass.seen, pass.best.value, i, k.(dp := dp.less)); }
  }

  lemma LookFits(s: State, c: CpuId, i: nat, pass: Pass, dp: Reads, s': State)
    requires c < |s.cpus| && i < |s.procs| && PassFits(s.procs, i, pass) && LookStep(s, c, i, pass, dp) == s'
    ensures |s'.cpus| == |s.cpus| && CpuFits(s'.procs, s'.cpus[c])
  {
    hide Best, Beats, Ahead, Taken;
    if s.procs[i].state.RUNNABLE? {
      var high := if pass.best.None? then s.procs[i].key else s.procs[pass.best.value].key;
      LookedFits(pass, i, s.procs[i].key, dp, high);
    }
  }

  lemma OwnPassKept(s: State, c: CpuId, dp: Reads, s': State)
    requires Inv(s) && Bounds(s) && c < |s.cpus| && CpuStep(s, c, dp) == Some(s')
    ensures |s'.cpus| == |s.cpus| && CpuFits(s'.procs, s'.cpus[c])
  {
    hide LockFits, RunsApart, OnSomeCpu, Inv, Best, Beats, LookStep;
    CpuFitsAt(s, c);
    match s.cpus[c]
    case Look(i, pass) => LookFits(s, c, i, pass, dp, s');
    case _ =>
  }

  lemma RunningIsStable(s: State, e: Event, s': State, c: CpuId)
    requires Inv(s) && Next(s, e) == Some(s') && c < |s.cpus| && !Acts(e, c) && s.cpus[c].Running?
    ensures |s'.procs| == |s.procs| && s.cpus[c].h < |s.procs| && s'.procs[s.cpus[c].h].state.RUNNING?
  {
    hide OnSomeCpu, Inv, LookStep, PassFits;
    Bounded(s);
    At(s, c, c, s.cpus[c].h);
    if ByCpuEvent(e) {
      At(s, e.c, c, s.cpus[c].h);
      if e.Step? && s.cpus[e.c].Look? { LookKeepsStates(s, e.c, e.got); }
    }
  }

  lemma LookKeepsStates(s: State, c: CpuId, dp: Reads)
    requires Bounds(s) && c < |s.cpus| && s.cpus[c].Look?
    ensures var s' := LookStep(s, c, s.cpus[c].i, s.cpus[c].pass, dp);
      && |s'.procs| == |s.procs| && (forall p :: 0 <= p < |s.procs| ==> s'.procs[p].state == s.procs[p].state)
      && |s'.cpus| == |s.cpus| && s'.cpus[c].Spin?
  {
  }

  lemma CpuFitsKept(s: State, e: Event, s': State, c: CpuId)
    requires Inv(s) && Next(s, e) == Some(s') && c < |s.cpus|
    ensures |s'.cpus| == |s.cpus| && CpuFits(s'.procs, s'.cpus[c])
  {
    hide OnSomeCpu, Inv, CpuStep, ProcStep, OtherStep, Best, Beats, LockFits, RunsApart;
    Bounded(s);
    BoundsKept(s, e, s');
    CpuFitsAt(s, c);
    if e.Step? && e.c == c { OwnPassKept(s, c, e.got, s'); }
    else if Acts(e, c) { ProcPassKept(s, e, s'); }
    else {
      OtherCpusKept(s, e, s', c);
      match s.cpus[c]
      case Spin(_, pass) =>
        if pass.best.Some? {
          At(s, c, c, pass.best.value); BestLocked(s, c); LockedIsStable(s, e, s', c, pass.best.value);
        }
      case Look(_, pass) =>
        if pass.best.Some? {
          At(s, c, c, pass.best.value); BestLocked(s, c); LockedIsStable(s, e, s', c, pass.best.value);
        }
      case Running(h) => RunningIsStable(s, e, s', c);
      case Back(h) =>
    }
  }

  lemma BestLocked(s: State, c: CpuId)
    requires Inv(s) && c < |s.cpus| && (s.cpus[c].Spin? || s.cpus[c].Look?) && s.cpus[c].pass.best.Some?
    ensures s.cpus[c].pass.best.value < |s.procs| && s.procs[s.cpus[c].pass.best.value].lock == Some(ByCpu(c))
  {
    hide OnSomeCpu, RunsApart, HolderKnown, PassFits;
    Bounded(s);
    assert CpuBounds(s.cpus[c], |s.procs|);
    assert LockFits(s, c, s.cpus[c].pass.best.value);
  }

  lemma ProcPassKept(s: State, e: Event, s': State)
    requires Inv(s) && Bounds(s) && (e.Release? || e.Acquire? || e.Sched?) && ProcStep(s, e) == Some(s')
    requires e.c < |s.cpus|
    ensures |s'.cpus| == |s.cpus| && CpuFits(s'.procs, s'.cpus[e.c])
  {
    hide LockFits, RunsApart, OnSomeCpu, PassFits;
    assert CpuFits(s.procs, s.cpus[e.c]);
  }

  lemma RunsApartKept(s: State, e: Event, s': State, c: CpuId, d: CpuId)
    requires Inv(s) && Next(s, e) == Some(s') && c < |s.cpus| && d < |s.cpus|
    ensures |s'.cpus| == |s.cpus| && RunsApart(s', c, d)
  {
    hide OnSomeCpu, Inv, LockFits, LookStep, Best, Beats;
    Bounded(s);
    BoundsKept(s, e, s');
    CpuFitsAt(s, c);
    CpuFitsAt(s, d);
    if |s.procs| > 0 { At(s, c, d, 0); }
    if !Acts(e, c) { OtherCpusKept(s, e, s', c); }
    if !Acts(e, d) { OtherCpusKept(s, e, s', d); }
    if e.Step? && s.cpus[e.c].Look? { LookKeepsStates(s, e.c, e.got); }
  }

  lemma HolderKept(s: State, e: Event, s': State, p: Pid)
    requires Inv(s) && Next(s, e) == Some(s') && p < |s.procs|
    ensures |s'.procs| == |s.procs| && HolderKnown(s'.procs[p], |s'.cpus|)
  {
    hide OnSomeCpu, Inv, LockFits, Best, Beats, RunsApart, PassFits;
    Bounded(s);
    BoundsKept(s, e, s');
    HolderKnownAt(s, p);
    if ByCpuEvent(e) { At(s, e.c, e.c, p); }
  }

  lemma HolderKnownAt(s: State, p: Pid)
    requires Inv(s) && p < |s.procs|
    ensures HolderKnown(s.procs[p], |s.cpus|) && OnSomeCpu(s, p)
  {
    hide OnSomeCpu, LockFits, RunsApart, CpuFits, HolderKnown;
  }

  lemma OnSomeCpuKept(s: State, e: Event, s': State, p: Pid)
    requires Inv(s) && Next(s, e) == Some(s') && p < |s.procs|
    ensures |s'.procs| == |s.procs| && OnSomeCpu(s', p)
  {
    hide Inv, LockFits, Best, Beats, PassFits, LookStep;
    Bounded(s);
    BoundsKept(s, e, s');
    HolderKnownAt(s, p);
    if ByCpuEvent(e) {
      At(s, e.c, e.c, p);
      if e.Step? && s.cpus[e.c].Look? { LookKeepsStates(s, e.c, e.got); }
    }
    if s.procs[p].state.RUNNING? {
      var c: CpuId :| c < |s.cpus| && s.cpus[c] == Running(p);
      if !Acts(e, c) { OtherCpusKept(s, e, s', c); }
      if ByCpuEvent(e) { At(s, c, e.c, p); }
      assert s'.cpus[c] == Running(p) || Acts(e, c);
    } else if s'.procs[p].state.RUNNING? {
      assert e.Step? && s'.cpus[e.c] == Running(p);
    }
  }

  lemma StepInv(s: State, e: Event, s': State)
    requires Inv(s) && Next(s, e) == Some(s')
    ensures Inv(s')
  {
    hide LockFits, CpuFits, RunsApart, OnSomeCpu, HolderKnown, Bounds, Next;
    Bounded(s);
    BoundsKept(s, e, s');
    forall c, p | 0 <= c < |s'.cpus| && 0 <= p < |s'.procs| ensures LockFits(s', c, p) { LockFitsKept(s, e, s', c, p); }
    forall c | 0 <= c < |s'.cpus| ensures CpuFits(s'.procs, s'.cpus[c]) { CpuFitsKept(s, e, s', c); }
    forall c, d | 0 <= c < |s'.cpus| && 0 <= d < |s'.cpus| ensures RunsApart(s', c, d) {
      RunsApartKept(s, e, s', c, d);
    }
    forall p | 0 <= p < |s'.procs| ensures HolderKnown(s'.procs[p], |s'.cpus|) && OnSomeCpu(s', p) {
      HolderKept(s, e, s', p);
      OnSomeCpuKept(s, e, s', p);
    }
  }

  /** Every CPU enters scheduler() with nothing locked and nothing running. */
  predicate Initial(s: State) {
    && (forall p :: 0 <= p < |s.procs| ==> s.procs[p].lock.None? && !s.procs[p].state.RUNNING?)
    && (forall c :: 0 <= c < |s.cpus| ==> s.cpus[c] == Spin(0, NO_PASS))
  }

  lemma InitialInv(s: State)
    requires Initial(s)
    ensures Inv(s)
  {
  }

  lemma {:induction false} RunInv(s: State, es: seq<Event>)
    requires Initial(s)
    ensures Bounds(s) && (Exec(s, es).Some? ==> Inv(Exec(s, es).value))
    decreases |es|
  {
    hide Inv, Next, Initial;
    InitialInv(s);
    Bounded(s);
    if es != [] && Exec(s, es).Some? {
      RunInv(s, es[..|es| - 1]);
      StepInv(Exec(s, es[..|es| - 1]).value, es[|es| - 1], Exec(s, es).value);
    }
  }

  // ---- what follows for every run ----

  /**
  Whatever the other CPUs and the rest of the kernel do meanwhile, the process a CPU switches to is
  RUNNABLE at that moment, was found RUNNABLE by the pass, and the CPU holds no other process's lock. It is
  the best of those found, by their keys as read, if and only if the pass is not astray.
  */
  lemma PicksTheBest(s: State, es: seq<Event>, c: CpuId)
    requires Initial(s) && Bounds(s) && Exec(s, es).Some? && c < |Exec(s, es).value.cpus|
    requires var t := Exec(s, es).value; t.cpus[c].Spin? && t.cpus[c].i == |t.procs|
    ensures var t := Exec(s, es).value; var pass := t.cpus[c].pass;
      && (pass.best.None? <==> pass.seen == map[])
      && (pass.best.Some? ==>
            && pass.best.value in pass.seen && (Best(pass.seen, pass.best.value) <==> !pass.astray)
            && pass.best.value < |t.procs| && t.procs[pass.best.value].state.RUNNABLE?
            && forall p :: 0 <= p < |t.procs| ==> (t.procs[p].lock == Some(ByCpu(c)) <==> p == pass.best.value))
  {
    hide Inv, Next, Initial, Exec, Bounds, RunsApart, OnSomeCpu;
    RunInv(s, es);
    var t := Exec(s, es).value;
    CpuFitsAt(t, c);
    forall p | 0 <= p < |t.procs| ensures t.procs[p].lock == Some(ByCpu(c)) <==> t.cpus[c].pass.best == Some(p) {
      At(t, c, c, p);
    }
  }

  /**
  What leads a pass astray: a process taken that does not beat the best so far with dp as min_dp is set from it, or
  one passed over that does with dp as it was read first.
  */
  lemma MisledIff(pass: Pass, i: nat, k: Key, dp: Reads, high: Key)
    requires (forall q <- pass.seen :: q < i) && pass.best.Some? && pass.best.value in pass.seen
    requires pass.seen[pass.best.value] == high.(dp := pass.minDp)
    requires !pass.astray && Best(pass.seen, pass.best.value)
    ensures Looked(pass, i, k, dp, high).astray <==>
            if Taken(k, dp, pass.minDp, high) then !Beats(k.(dp := dp.last), high.(dp := pass.minDp))
            else Beats(k.(dp := dp.less), high.(dp := pass.minDp))
  {
    hide Best, Beats, Taken;
    AheadOfBest(pass.seen, pass.best.value, k.(dp := dp.last));
  }

  /** Then dp has been written during that look. */
  lemma OnlyByWrites(pass: Pass, i: nat, k: Key, dp: Reads, high: Key)
    requires (forall q <- pass.seen :: q < i) && (pass.best.None? ==> pass.seen == map[])
    requires pass.best.Some? ==>
               && pass.best.value in pass.seen && pass.seen[pass.best.value] == high.(dp := pass.minDp)
               && !pass.astray && Best(pass.seen, pass.best.value)
    requires dp.Agree()
    ensures !Looked(pass, i, k, dp, high).astray
  {
    hide Best;
    if pass.best.Some? { MisledIff(pass, i, k, dp, high); }
  }

  ghost predicate NoneAstray(s: State) {
    forall c :: 0 <= c < |s.cpus| && (s.cpus[c].Spin? || s.cpus[c].Look?) ==> !s.cpus[c].pass.astray
  }

  lemma NotAstrayKept(s: State, e: Event, s': State, c: CpuId)
    requires Inv(s) && Bounds(s) && Next(s, e) == Some(s') && c < |s.cpus| == |s'.cpus| && NoneAstray(s)
    requires e.Step? ==> e.got.Agree()
    ensures s'.cpus[c].Spin? || s'.cpus[c].Look? ==> !s'.cpus[c].pass.astray
  {
    hide Inv, Best, Beats, Looked, OtherStep;
    CpuFitsAt(s, c);
    if !Acts(e, c) { OtherCpusKept(s, e, s', c); }
    if e.Step? && e.c == c && s.cpus[c].Look? && s.procs[s.cpus[c].i].state.RUNNABLE? {
      var i, pass := s.cpus[c].i, s.cpus[c].pass;
      OnlyByWrites(pass, i, s.procs[i].key, e.got,
                   if pass.best.None? then s.procs[i].key else s.procs[pass.best.value].key);
    }
  }

  /** While no dp is written during a look at it, every pass picks the best. */
  lemma {:induction false} SteadyPasses(s: State, es: seq<Event>)
    requires Initial(s) && Bounds(s) && Exec(s, es).Some? && forall e <- es :: e.Step? ==> e.got.Agree()
    ensures NoneAstray(Exec(s, es).value)
    decreases |es|
  {
    hide Inv, Next, Bounds;
    if es != [] {
      var front, e := es[..|es| - 1], es[|es| - 1];
      assert e in es && forall d <- front :: d in es;
      SteadyPasses(s, front);
      RunInv(s, front);
      var t, t' := Exec(s, front).value, Exec(s, es).value;
      BoundsKept(t, e, t');
      forall c | 0 <= c < |t'.cpus| && (t'.cpus[c].Spin? || t'.cpus[c].Look?) ensures !t'.cpus[c].pass.astray {
        NotAstrayKept(t, e, t', c);
      }
    }
  }

  /** Two RUNNABLE processes, of dp 7 and 5, and one CPU. */
  const TWO: State :=
    State([Proc(RUNNABLE, Key(7, 0, 0), None), Proc(RUNNABLE, Key(5, 0, 0), None)], [Spin(0, NO_PASS)])

  function Steady(dp: nat): Reads {
    Reads(dp, dp, dp, dp)
  }

  /** The pass looks at both; while it looks at the second, clockintr writes 9 where it has just read 5. */
  const MISLED: seq<Event> :=
    [Step(0, Steady(7)), Step(0, Steady(7)), Step(0, Steady(5)), Step(0, Reads(5, 5, 5, 9)), Step(0, Steady(9))]

  lemma OneMore(s: State, es: seq<Event>, k: nat, t: State, u: State)
    requires Bounds(s) && k < |es| && Exec(s, es[..k]) == Some(t) && Bounds(t) && Next(t, es[k]) == Some(u)
    ensures Exec(s, es[..k + 1]) == Some(u)
  {
    hide Next, Bounds;
    assert es[..k + 1][..k] == es[..k];
  }

  /** A run in which the CPU switches to process 1, with dp 9, having seen process 0, with dp 7. */
  lemma WorseIsRun()
    ensures Initial(TWO) && Bounds(TWO) && Exec(TWO, MISLED[..4]).Some? && Exec(TWO, MISLED).Some?
    ensures var t := Exec(TWO, MISLED[..4]).value;
      && |t.procs| == 2 && |t.cpus| == 1
      && t.cpus[0] == Spin(2, Pass(Some(1), 9, map[0 := Key(7, 0, 0), 1 := Key(9, 0, 0)], true))
      && Best(t.cpus[0].pass.seen, 0) && !Best(t.cpus[0].pass.seen, 1)
    ensures Exec(TWO, MISLED).value.cpus == [Running(1)]
  {
    hide Exec, Best;
    var p0, p1 := TWO.procs[0], TWO.procs[1];
    var mine := Some(ByCpu(0));
    var first := Pass(Some(0), 7, map[0 := p0.key], false);
    var last := Pass(Some(1), 9, map[0 := p0.key, 1 := Key(9, 0, 0)], true);
    var s1 := State([p0.(lock := mine), p1], [Look(0, NO_PASS)]);
    var s2 := State([p0.(lock := mine), p1], [Spin(1, first)]);
    var s3 := State([p0.(lock := mine), p1.(lock := mine)], [Look(1, first)]);
    var s4 := State([p0, p1.(key := Key(9, 0, 0), lock := mine)], [Spin(2, last)]);
    var s5 := State([p0, Proc(RUNNING, Key(9, 1, 0), Some(ByProc))], [Running(1)]);
    Nothing(TWO, MISLED);
    Locks(TWO, 0, NO_PASS, MISLED[0], s1);
    OneMore(TWO, MISLED, 0, TWO, s1);
    FirstLook(s1, s2);
    OneMore(TWO, MISLED, 1, s1, s2);
    Locks(s2, 1, first, MISLED[2], s3);
    OneMore(TWO, MISLED, 2, s2, s3);
    SecondLook(s3, s4);
    OneMore(TWO, MISLED, 3, s3, s4);
    Picks(s4, s5);
    OneMore(TWO, MISLED, 4, s4, s5);
    assert MISLED[..5] == MISLED;
    Worse(last.seen);
  }

  lemma Nothing(s: State, es: seq<Event>)
    requires Bounds(s)
    ensures Exec(s, es[..0]) == Some(s)
  {
  }

  lemma Locks(s: State, i: nat, pass: Pass, e: Event, t: State)
    requires s.cpus == [Spin(i, pass)] && i < |s.procs| == 2 && s.procs[i].lock.None?
    requires pass.best.Some? ==> pass.best.value < 2
    requires e.Step? && e.c == 0 && t.cpus == [Look(i, pass)]
    requires t.procs == s.procs[i := s.procs[i].(lock := Some(ByCpu(0)))]
    ensures Bounds(s) && Next(s, e) == Some(t)
  {
    assert SetCpu(SetLock(s, i, Some(ByCpu(0))), 0, Look(i, pass)).cpus == t.cpus;
  }

  lemma Picks(s: State, t: State)
    requires |s.procs| == 2 && s.procs[1] == Proc(RUNNABLE, Key(9, 0, 0), Some(ByCpu(0)))
    requires s.cpus == [Spin(2, Pass(Some(1), 9, map[0 := Key(7, 0, 0), 1 := Key(9, 0, 0)], true))]
    requires t == State([s.procs[0], Proc(RUNNING, Key(9, 1, 0), Some(ByProc))], [Running(1)])
    ensures Bounds(s) && Next(s, MISLED[4]) == Some(t)
  {
    assert PickStep(s, 0, s.cpus[0].pass).procs == t.procs;
    assert PickStep(s, 0, s.cpus[0].pass).cpus == t.cpus;
  }

  lemma FirstLook(s: State, t: State)
    requires s == State([Proc(RUNNABLE, Key(7, 0, 0), Some(ByCpu(0))), TWO.procs[1]], [Look(0, NO_PASS)])
    requires t == State(s.procs, [Spin(1, Pass(Some(0), 7, map[0 := Key(7, 0, 0)], false))])
    ensures Bounds(s) && Next(s, MISLED[1]) == Some(t)
  {
    assert NO_PASS.seen[0 := Key(7, 0, 0)] == map[0 := Key(7, 0, 0)];
    var u := LookStep(s, 0, 0, NO_PASS, Steady(7));
    assert u.procs == t.procs && u.cpus == t.cpus;
  }

  lemma SecondLook(s: State, t: State)
    requires s.procs == [Proc(RUNNABLE, Key(7, 0, 0), Some(ByCpu(0))), Proc(RUNNABLE, Key(5, 0, 0), Some(ByCpu(0)))]
    requires s.cpus == [Look(1, Pass(Some(0), 7, map[0 := Key(7, 0, 0)], false))]
    requires t.procs == [Proc(RUNNABLE, Key(7, 0, 0), None), Proc(RUNNABLE, Key(9, 0, 0), Some(ByCpu(0)))]
    requires t.cpus == [Spin(2, Pass(Some(1), 9, map[0 := Key(7, 0, 0), 1 := Key(9, 0, 0)], true))]
    ensures Bounds(s) && Next(s, MISLED[3]) == Some(t)
  {
    var seen := map[0 := Key(7, 0, 0)];
    assert 0 in seen && !Beats(Key(9, 0, 0), seen[0]);
    assert seen[1 := Key(9, 0, 0)] == map[0 := Key(7, 0, 0), 1 := Key(9, 0, 0)];
    var u := LookStep(s, 0, 1, s.cpus[0].pass, Reads(5, 5, 5, 9));
    assert u.procs == t.procs && u.cpus == t.cpus;
  }

  lemma Worse(seen: map<Pid, Key>)
    requires seen == map[0 := Key(7, 0, 0), 1 := Key(9, 0, 0)]
    ensures Best(seen, 0) && !Best(seen, 1)
  {
    assert 0 in seen && Beats(seen[0], seen[1]);
  }

  lemma CpuFitsAt(s: State, c: CpuId)
    requires Inv(s) && c < |s.cpus|
    ensures CpuFits(s.procs, s.cpus[c]) && CpuBounds(s.cpus[c], |s.procs|)
  {
    hide LockFits, CpuFits, RunsApart, OnSomeCpu, HolderKnown;
  }

  /** A process is RUNNING exactly while one CPU, and only one, has switched to it. */
  lemma OneCpuEach(s: State, es: seq<Event>, p: Pid)
    requires Initial(s) && Bounds(s) && Exec(s, es).Some? && p < |Exec(s, es).value.procs|
    ensures var t := Exec(s, es).value;
      && (t.procs[p].state.RUNNING? <==> exists c: CpuId :: c < |t.cpus| && t.cpus[c] == Running(p))
      && forall c, d :: 0 <= c < |t.cpus| && 0 <= d < |t.cpus| && t.cpus[c] == Running(p) && t.cpus[d] == Running(p) ==>
           c == d
  {
    hide Inv, Next, Initial, Exec, Bounds, LockFits;
    RunInv(s, es);
    var t := Exec(s, es).value;
    HolderKnownAt(t, p);
    forall c | 0 <= c < |t.cpus| && t.cpus[c] == Running(p) ensures t.procs[p].state.RUNNING? { At(t, c, c, p); }
    forall c, d | 0 <= c < |t.cpus| && 0 <= d < |t.cpus| && t.cpus[c] == Running(p) && t.cpus[d] == Running(p)
      ensures c == d
    {
      At(t, c, d, p);
    }
  }

  /** The CPU is in a pass, and has process p behind it. */
  predicate Passed(cpu: Cpu, p: Pid) {
    (cpu.Spin? || cpu.Look?) && p < cpu.i
  }

  /** In step k of the run, CPU c looked at process p: found if it was RUNNABLE, with the key it then had. */
  ghost predicate LookedAt(s: State, es: seq<Event>, k: nat, c: CpuId, p: Pid, seen: map<Pid, Key>)
    requires Bounds(s) && k < |es|
  {
    && es[k].Step? && es[k].c == c
    && Exec(s, es[..k]).Some?
    && var t := Exec(s, es[..k]).value;
       && c < |t.cpus| && t.cpus[c].Look? && t.cpus[c].i == p < |t.procs|
       && (p in seen <==> t.procs[p].state.RUNNABLE?)
       && (p in seen ==>
             && seen[p].numSch == t.procs[p].key.numSch && seen[p].ctime == t.procs[p].key.ctime
             && (seen[p].dp == es[k].got.less == t.procs[p].key.dp || seen[p].dp == es[k].got.last))
  }

  lemma LookNow(s: State, c: CpuId, got: Reads, s': State)
    requires Bounds(s) && Next(s, Step(c, got)) == Some(s') && c < |s.cpus| == |s'.cpus| && s.cpus[c].Look?
    requires PassFits(s.procs, s.cpus[c].i, s.cpus[c].pass)
    ensures s'.cpus[c].Spin? && s'.cpus[c].i == s.cpus[c].i + 1
    ensures forall q :: q != s.cpus[c].i ==> (q in s'.cpus[c].pass.seen <==> q in s.cpus[c].pass.seen)
    ensures forall q <- s.cpus[c].pass.seen :: s'.cpus[c].pass.seen[q] == s.cpus[c].pass.seen[q]
    ensures var i := s.cpus[c].i; var seen := s'.cpus[c].pass.seen; var k := s.procs[i].key;
            && (i in seen <==> s.procs[i].state.RUNNABLE?)
            && (i in seen ==>
                  && seen[i].numSch == k.numSch && seen[i].ctime == k.ctime
                  && (seen[i].dp == got.less == k.dp || seen[i].dp == got.last))
  {
    hide Ahead, Taken, Beats, Best;
  }

  lemma SamePass(s: State, c: CpuId, got: Reads, s': State, p: Pid)
    requires Bounds(s) && Next(s, Step(c, got)) == Some(s') && c < |s.cpus| == |s'.cpus| && !s.cpus[c].Look?
    ensures Passed(s'.cpus[c], p) ==> Passed(s.cpus[c], p) && s'.cpus[c].pass == s.cpus[c].pass
  {
  }

  /**
  No process is left out: whatever a pass has behind it, it has looked at, in one of its own steps, and what it has
  seen is exactly those that were RUNNABLE then.
  */
  lemma {:induction false} LooksAtAll(s: State, es: seq<Event>, c: CpuId, p: Pid) returns (k: nat)
    requires Initial(s) && Bounds(s) && Exec(s, es).Some? && c < |Exec(s, es).value.cpus|
    requires Passed(Exec(s, es).value.cpus[c], p)
    ensures k < |es| && LookedAt(s, es, k, c, p, Exec(s, es).value.cpus[c].pass.seen)
    ensures forall j :: k < j <= |es| && Exec(s, es[..j]).Some? && c < |Exec(s, es[..j]).value.cpus| ==>
              Passed(Exec(s, es[..j]).value.cpus[c], p)
    decreases |es|
  {
    hide Inv, Next, Bounds, PassFits;
    assert es != [];
    var n := |es| - 1;
    var front, e := es[..n], es[n];
    var t, t' := Exec(s, front).value, Exec(s, es).value;
    RunInv(s, front);
    Bounded(t);
    BoundsKept(t, e, t');
    assert es[..n + 1] == es;
    if Acts(e, c) && t.cpus[c].Look? && t.cpus[c].i == p {
      k := n;
      OwnEvent(t, e, t', c);
      CpuFitsAt(t, c);
      LookNow(t, c, e.got, t');
    } else {
      StillPassed(t, e, t', c, p);
      k := LooksAtAll(s, front, c, p);
      assert front[..k] == es[..k];
      forall j | k < j <= |es| && Exec(s, es[..j]).Some? && c < |Exec(s, es[..j]).value.cpus|
        ensures Passed(Exec(s, es[..j]).value.cpus[c], p)
      {
        if j < |es| { assert front[..j] == es[..j]; }
      }
    }
  }

  lemma StillPassed(t: State, e: Event, t': State, c: CpuId, p: Pid)
    requires Inv(t) && Bounds(t) && Next(t, e) == Some(t') && c < |t.cpus| == |t'.cpus| && Passed(t'.cpus[c], p)
    requires !(Acts(e, c) && t.cpus[c].Look? && t.cpus[c].i == p)
    ensures Passed(t.cpus[c], p)
    ensures p in t'.cpus[c].pass.seen <==> p in t.cpus[c].pass.seen
    ensures p in t.cpus[c].pass.seen ==> t'.cpus[c].pass.seen[p] == t.cpus[c].pass.seen[p]
  {
    hide Inv, Next, Bounds, PassFits;
    if !Acts(e, c) {
      OtherCpusKept(t, e, t', c);
    } else {
      OwnEvent(t, e, t', c);
      CpuFitsAt(t, c);
      if t.cpus[c].Look? { LookNow(t, c, e.got, t'); } else { SamePass(t, c, e.got, t', p); }
    }
  }

  lemma OwnEvent(t: State, e: Event, t': State, c: CpuId)
    requires Bounds(t) && Next(t, e) == Some(t') && c < |t.cpus| == |t'.cpus| && Acts(e, c)
    requires t'.cpus[c].Spin? || t'.cpus[c].Look?
    ensures e.Step? && e.c == c
  {
  }

  /** clockintr may write any dp, of any process, at any moment, locked or not. */
  lemma TickWrites(s: State, p: Pid, dp: nat)
    requires Bounds(s) && p < |s.procs|
    ensures var t := Next(s, Tick(p, dp));
      && t.Some? && t.value.cpus == s.cpus && t.value.procs[p := s.procs[p]] == s.procs
      && |t.value.procs| == |s.procs| && t.value.procs[p].key.dp == dp && Kept(s.procs[p], t.value.procs[p])
  {
  }

  /** In this step a CPU switches to process p. */
  predicate SwitchesTo(e: Event, t: State, p: Pid) {
    e.Step? && e.c < |t.cpus| && t.cpus[e.c] == Running(p)
  }

  /** How often a CPU switches to process p in a run. */
  function Switches(s: State, es: seq<Event>, p: Pid): nat
    requires Bounds(s) && Exec(s, es).Some?
    decreases |es|
  {
    if es == [] then 0
    else Switches(s, es[..|es| - 1], p) + if SwitchesTo(es[|es| - 1], Exec(s, es).value, p) then 1 else 0
  }

  lemma CountStep(s: State, e: Event, s': State, p: Pid)
    requires Inv(s) && Bounds(s) && Next(s, e) == Some(s') && p < |s.procs| && !(e.Write? && e.p == p)
    ensures |s'.procs| == |s.procs|
    ensures s'.procs[p].key.numSch ==
            if SwitchesTo(e, s', p) then (s.procs[p].key.numSch + 1) % UINT else s.procs[p].key.numSch
  {
    hide Inv, Best, Looked, Taken;
    BoundsKept(s, e, s');
  }

  /** While other code leaves its numSch alone, it counts how often the process was switched to, modulo 2^32. */
  lemma {:induction false} RunsCounted(s: State, es: seq<Event>, p: Pid)
    requires Initial(s) && Bounds(s) && Exec(s, es).Some? && p < |s.procs| && s.procs[p].key.numSch < UINT
    requires forall e <- es :: !(e.Write? && e.p == p)
    ensures p < |Exec(s, es).value.procs|
    ensures Exec(s, es).value.procs[p].key.numSch == (s.procs[p].key.numSch + Switches(s, es, p)) % UINT
    decreases |es|
  {
    hide Inv, Next, Bounds, Initial, SwitchesTo;
    if es != [] {
      var front, e := es[..|es| - 1], es[|es| - 1];
      assert e in es && forall d <- front :: d in es;
      RunsCounted(s, front, p);
      RunInv(s, front);
      CountStep(Exec(s, front).value, e, Exec(s, es).value, p);
      ModStep(s.procs[p].key.numSch + Switches(s, front, p));
    }
  }

  lemma ModStep(n: nat)
    ensures (n % UINT + 1) % UINT == (n + 1) % UINT
  {
  }

  /** CPU c waits for a lock somebody holds. */
  predicate Spinning(s: State, c: CpuId)
    requires c < |s.cpus|
  {
    s.cpus[c].Spin? && s.cpus[c].i < |s.procs| && s.procs[s.cpus[c].i].lock.Some?
  }

  /** The holder of p->lock can take a step: it is not a CPU spinning for another lock. */
  predicate HolderCanGo(s: State, p: Pid)
    requires p < |s.procs| && s.procs[p].lock.Some?
  {
    s.procs[p].lock.value.ByCpu? ==>
      s.procs[p].lock.value.c < |s.cpus| && !Spinning(s, s.procs[p].lock.value.c) &&
          !s.cpus[s.procs[p].lock.value.c].Running?
  }

  /** Locks are taken in rising order: the waits end, at or above any index, at a holder that can go on. */
  lemma {:induction false} SomebodyCanGo(s: State, p: Pid) returns (top: Pid)
    requires Inv(s) && p < |s.procs| && s.procs[p].lock.Some?
    ensures p <= top < |s.procs| && s.procs[top].lock.Some? && HolderCanGo(s, top)
    decreases |s.procs| - p
  {
    hide Inv, CpuFits, RunsApart, OnSomeCpu;
    HolderKnownAt(s, p);
    top := p;
    if !HolderCanGo(s, p) {
      var c := s.procs[p].lock.value.c;
      At(s, c, c, p);
      CpuFitsAt(s, c);
      PassBelow(s, c);
      top := SomebodyCanGo(s, s.cpus[c].i);
    }
  }

  /** No set of scanning CPUs can deadlock: behind every spinning CPU there is a holder that can go on. */
  lemma NoDeadlock(s: State, es: seq<Event>, c: CpuId)
    requires Initial(s) && Bounds(s) && Exec(s, es).Some? && c < |Exec(s, es).value.cpus|
    requires Spinning(Exec(s, es).value, c)
    ensures var t := Exec(s, es).value;
      exists top: Pid :: t.cpus[c].i <= top < |t.procs| && t.procs[top].lock.Some? && HolderCanGo(t, top)
  {
    hide Inv, Next, Initial, Exec, Bounds, HolderCanGo;
    RunInv(s, es);
    var top := SomebodyCanGo(Exec(s, es).value, Exec(s, es).value.cpus[c].i);
  }

  /** Such a holder, when it is a CPU, really has a step. */
  lemma CanGoSteps(s: State, p: Pid)
    requires Inv(s) && Bounds(s) && p < |s.procs| && s.procs[p].lock.Some? && s.procs[p].lock.value.ByCpu?
    requires HolderCanGo(s, p)
    ensures exists dp :: Next(s, Step(s.procs[p].lock.value.c, dp)).Some?
  {
    hide Inv, PickStep, LookStep;
    var c := s.procs[p].lock.value.c;
    var dp := if s.cpus[c].Look? then s.procs[s.cpus[c].i].key.dp else 0;
    assert Next(s, Step(c, Steady(dp))).Some?;
  }
}
