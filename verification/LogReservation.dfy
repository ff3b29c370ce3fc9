/**
The log-space reservation of begin_op: exactly when no interleaving of operations can reach
the "too big a transaction" panic of log_write.
*/
module LogReservation {
  import opened Wrappers
  import opened LogMachine
  import opened LogSafety
  import opened LogTheorems

  ghost predicate WithinBudget(s: State, budget: nat) {
    forall p :: p in s.ops ==> s.ops[p] <= budget
  }

  /** A run in which no operation ever has more than budget new blocks in the log. */
  ghost predicate Thrifty(l: Layout, s: State, es: seq<Event>, budget: nat)
    requires Wf(l, s)
    decreases |es|
  {
    && Exec(l, s, es).Some?
    && WithinBudget(Exec(l, s, es).value, budget)
    && (es != [] ==> Thrifty(l, s, es[..|es| - 1], budget))
  }

  /** Whatever the interleaving, no operation that is allowed to call log_write finds the log full. */
  ghost predicate PanicFree(l: Layout, budget: nat) {
    forall s, es :: Fresh(l, s) && Thrifty(l, s, es, budget) && Exec(l, s, es).value.ops != map[]
      ==> !LogFull(l, Exec(l, s, es).value)
  }

  // ---- the reservation is enough ----

  /** The sum over outstanding operations of the blocks each may still add. */
  ghost function Unused(ops: map<Proc, nat>, budget: nat): int
    decreases |ops|
  {
    if ops == map[] then 0
    else
      var p :| p in ops;
      budget - ops[p] + Unused(ops - {p}, budget)
  }

  lemma {:induction false} UnusedRemove(ops: map<Proc, nat>, budget: nat, p: Proc)
    requires p in ops
    ensures Unused(ops, budget) == budget - ops[p] + Unused(ops - {p}, budget)
    decreases |ops|
  {
    var q :| q in ops && Unused(ops, budget) == budget - ops[q] + Unused(ops - {q}, budget);
    if p != q {
      UnusedRemove(ops - {q}, budget, p);
      UnusedRemove(ops - {p}, budget, q);
      assert ops - {q} - {p} == ops - {p} - {q};
    }
  }

  lemma UnusedUpdate(ops: map<Proc, nat>, budget: nat, p: Proc, n: nat)
    ensures Unused(ops[p := n], budget) == budget - n + Unused(ops - {p}, budget)
  {
    UnusedRemove(ops[p := n], budget, p);
    assert ops[p := n] - {p} == ops - {p};
  }

  lemma {:induction false} UnusedBounds(ops: map<Proc, nat>, budget: nat)
    requires forall p :: p in ops ==> ops[p] <= budget
    ensures 0 <= Unused(ops, budget)
    ensures |ops| <= 2 ==> Unused(ops, budget) <= (if |ops| == 0 then 0 else if |ops| == 1 then budget else 2 * budget)
    decreases |ops|
  {
    if ops != map[] {
      var p :| p in ops && Unused(ops, budget) == budget - ops[p] + Unused(ops - {p}, budget);
      assert (ops - {p}).Keys == ops.Keys - {p};
      UnusedBounds(ops - {p}, budget);
    }
  }

  /** Blocks in the log plus the unused budgets of the outstanding operations. */
  ghost predicate Reserved(s: State, budget: nat) {
    s.phase.Idle? ==> |s.lh| + Unused(s.ops, budget) <= MAXOPBLOCKS + 2 * budget
  }

  lemma BeginReserves(s: State, s': State, budget: nat, p: Proc)
    requires MayBegin(s) && p !in s.ops && WithinBudget(s, budget) && budget <= MAXOPBLOCKS
    requires s.ops == map[] ==> s.lh == []
    requires s'.lh == s.lh && s'.ops == s.ops[p := 0]
    ensures Reserved(s', budget)
  {
    assert s.ops - {p} == s.ops;
    assert |s.ops| == 0 ==> s.ops == map[];
    GuardSuffices(|s.ops|, |s.lh|, Unused(s.ops, budget), budget) by {
      UnusedBounds(s.ops, budget);
    }
    UnusedUpdate(s.ops, budget, p, 0);
  }

  /** The arithmetic of begin_op's guard, for k operations already admitted. */
  lemma GuardSuffices(k: nat, n: nat, unused: int, budget: nat)
    requires n + (k + 1) * MAXOPBLOCKS <= LOGSIZE && budget <= MAXOPBLOCKS && (k == 0 ==> n == 0)
    requires k <= 2 ==> unused <= (if k == 0 then 0 else if k == 1 then budget else 2 * budget)
    ensures n + unused + budget <= MAXOPBLOCKS + 2 * budget
  {
  }

  lemma EndReserves(s: State, s': State, budget: nat, p: Proc)
    requires s.phase.Idle? && p in s.ops && WithinBudget(s, budget) && Reserved(s, budget)
    requires s'.lh == s.lh && s'.ops == s.ops - {p}
    ensures Reserved(s', budget)
  {
    UnusedRemove(s.ops, budget, p);
  }

  lemma LogWriteReserves(s: State, s': State, budget: nat, p: Proc, b: nat)
    requires p in s.ops && Reserved(s, budget) && s'.phase == s.phase
    requires s'.lh == s.lh + [b] && s'.ops == s.ops[p := s.ops[p] + 1]
    ensures Reserved(s', budget)
  {
    UnusedRemove(s.ops, budget, p);
    UnusedUpdate(s.ops, budget, p, s.ops[p] + 1);
  }

  /** Steps other than begin_op, end_op and log_write never add to what is reserved. */
  lemma DiskStepReserves(l: Layout, s: State, s': State, e: Event)
    requires Wf(l, s) && Next(l, s, e) == Some(s')
    requires e.Copy? || e.CommitPoint? || e.InstallOne? || e.Erase? || e.Done? || e.Crash? || e.ReadHeader?
    requires s.phase.Finishing? ==> s.lh == []
    requires !s.phase.Idle? ==> s.ops == map[]
    ensures s'.phase.Idle? ==> s'.ops == map[] && s'.lh == []
  {
  }

  lemma OtherReserves(l: Layout, s: State, s': State, e: Event, budget: nat)
    requires Wf(l, s) && Next(l, s, e) == Some(s') && !e.Begin? && !e.End? && !e.LogWrite?
    requires Reserved(s, budget)
    requires s.phase.Finishing? ==> s.lh == []
    requires !s.phase.Idle? ==> s.ops == map[]
    ensures Reserved(s', budget)
  {
    if e.Acquire? || e.Modify? || e.Release? || e.Evict? {
      assert s'.phase == s.phase && s'.ops == s.ops && s'.lh == s.lh;
    } else {
      DiskStepReserves(l, s, s', e);
    }
  }

  lemma ReservedStep(l: Layout, s: State, s': State, e: Event, budget: nat)
    requires WithinBudget(s, budget) && Reserved(s, budget) && budget <= MAXOPBLOCKS
    requires (if s.phase.Idle? then s.ops == map[] ==> s.lh == [] else s.ops == map[])
    requires s.phase.Finishing? ==> s.lh == []
    requires Wf(l, s) && Next(l, s, e) == Some(s')
    ensures Reserved(s', budget)
  {
    match e
    case Begin(p) => BeginReserves(s, s', budget, p);
    case End(p) => EndReserves(s, s', budget, p);
    case LogWrite(p, b, _) =>
      if b !in s.lh {
        LogWriteReserves(s, s', budget, p, b);
      }
    case _ => OtherReserves(l, s, s', e, budget);
  }

  lemma {:induction false} ReservedRun(l: Layout, s: State, a: Abs, es: seq<Event>, budget: nat)
    requires Good(l, s, a) && s.phase.Booting() && budget <= MAXOPBLOCKS
    requires Thrifty(l, s, es, budget)
    ensures Reserved(Exec(l, s, es).value, budget)
    decreases |es|
  {
    if es != [] {
      var front := es[..|es| - 1];
      ReservedRun(l, s, a, front, budget);
      assert Inv(l, Exec(l, s, front).value) by { RunRefines(l, s, a, front); }
      ReservedStep(l, Exec(l, s, front).value, Exec(l, s, es).value, es[|es| - 1], budget);
    }
  }

  lemma EnoughSpace(l: Layout, s: State, es: seq<Event>, budget: nat)
    requires Fresh(l, s) && Thrifty(l, s, es, budget) && Exec(l, s, es).value.ops != map[]
    requires MAXOPBLOCKS + 2 * budget < l.Capacity()
    ensures !LogFull(l, Exec(l, s, es).value)
  {
    FreshIsGood(l, s);
    ReservedRun(l, s, Initially(l, s.disk), es, budget);
    RunRefines(l, s, Initially(l, s.disk), es);
    UnusedBounds(Exec(l, s, es).value.ops, budget);
  }

  // ---- a larger budget is too much ----

  /** k consecutive blocks after the log area are in the log; nobody holds a buffer. */
  ghost predicate Shape(l: Layout, s: State, k: nat, ops: map<Proc, nat>) {
    && l.Valid() && Wf(l, s) && s.phase.Idle?
    && |s.lh| == k && (forall i :: 0 <= i < k ==> s.lh[i] == l.start + l.size + i)
    && s.held == map[] && s.dirty == {} && s.ops == ops
  }

  /** There is a thrifty run from s0 to a state of the given shape. */
  ghost predicate Reaches(l: Layout, s0: State, es: seq<Event>, budget: nat, k: nat, ops: map<Proc, nat>)
    requires Wf(l, s0)
  {
    Thrifty(l, s0, es, budget) && Shape(l, Exec(l, s0, es).value, k, ops)
  }

  lemma ThriftyExtend(l: Layout, s0: State, es: seq<Event>, e: Event, budget: nat)
    requires Wf(l, s0) && Thrifty(l, s0, es, budget)
    requires Next(l, Exec(l, s0, es).value, e).Some?
    requires WithinBudget(Next(l, Exec(l, s0, es).value, e).value, budget)
    ensures Thrifty(l, s0, es + [e], budget)
    ensures Exec(l, s0, es + [e]) == Next(l, Exec(l, s0, es).value, e)
  {
    Extend(l, s0, es, Exec(l, s0, es).value, e);
    assert (es + [e])[..|es|] == es;
  }

  /** The three steps by which an operation logs one more block. */
  lemma LogOneMore(l: Layout, s: State, k: nat, ops: map<Proc, nat>, p: Proc, b: nat, s1: State, s2: State, s3: State)
    requires Shape(l, s, k, ops) && p in ops && b == l.start + l.size + k && l.Home(b) && k < l.Capacity()
    requires s1 == s.(held := map[b := p], cache := s.cache[b := Cached(s, b)])
    requires s2 == s1.(lh := s.lh + [b], ops := ops[p := ops[p] + 1])
    requires s3 == s2.(held := map[])
    ensures Next(l, s, Acquire(p, b)) == Some(s1)
    ensures Next(l, s1, LogWrite(p, b, Cached(s, b))) == Some(s2)
    ensures Next(l, s2, Release(p, b)) == Some(s3)
    ensures Shape(l, s3, k + 1, ops[p := ops[p] + 1])
  {
    assert s.held[b := p] == map[b := p];
    assert map[b := p] - {b} == map[];
    assert s1.dirty - {b} == {};
    assert b !in s.lh;
  }

  lemma ThriftyExtend3(l: Layout, s0: State, es: seq<Event>, e1: Event, e2: Event, e3: Event,
                       s1: State, s2: State, s3: State, budget: nat)
    requires Wf(l, s0) && Thrifty(l, s0, es, budget)
    requires Next(l, Exec(l, s0, es).value, e1) == Some(s1) && Next(l, s1, e2) == Some(s2)
    requires Next(l, s2, e3) == Some(s3)
    requires WithinBudget(s1, budget) && WithinBudget(s2, budget) && WithinBudget(s3, budget)
    ensures Thrifty(l, s0, es + [e1] + [e2] + [e3], budget)
    ensures Exec(l, s0, es + [e1] + [e2] + [e3]) == Some(s3)
  {
    ThriftyExtend(l, s0, es, e1, budget);
    ThriftyExtend(l, s0, es + [e1], e2, budget);
    ThriftyExtend(l, s0, es + [e1] + [e2], e3, budget);
  }

  /** One operation reads, logs and releases one more block. */
  lemma AddBlock(l: Layout, s0: State, es: seq<Event>, budget: nat, k: nat, ops: map<Proc, nat>, p: Proc)
    returns (fs: seq<Event>)
    requires Wf(l, s0) && Reaches(l, s0, es, budget, k, ops)
    requires p in ops && ops[p] < budget && k < l.Capacity() && l.start + l.size + LOGSIZE <= l.blocks
    ensures Reaches(l, s0, fs, budget, k + 1, ops[p := ops[p] + 1])
  {
    var s := Exec(l, s0, es).value;
    var b := l.start + l.size + k;
    var data := Cached(s, b);
    var s1 := s.(held := map[b := p], cache := s.cache[b := data]);
    var s2 := s1.(lh := s.lh + [b], ops := ops[p := ops[p] + 1]);
    var s3 := s2.(held := map[]);
    LogOneMore(l, s, k, ops, p, b, s1, s2, s3);
    ThriftyExtend3(l, s0, es, Acquire(p, b), LogWrite(p, b, data), Release(p, b), s1, s2, s3, budget);
    fs := es + [Acquire(p, b)] + [LogWrite(p, b, data)] + [Release(p, b)];
  }

  lemma {:induction false} AddBlocks(l: Layout, s0: State, es: seq<Event>, budget: nat, k: nat, ops: map<Proc, nat>,
                                     p: Proc, m: nat, ops': map<Proc, nat>)
    returns (fs: seq<Event>)
    requires Wf(l, s0) && Reaches(l, s0, es, budget, k, ops)
    requires p in ops && ops' == ops[p := ops[p] + m] && ops'[p] <= budget
    requires k + m <= l.Capacity() && l.start + l.size + LOGSIZE <= l.blocks
    ensures Reaches(l, s0, fs, budget, k + m, ops')
    decreases m
  {
    if m == 0 {
      assert ops' == ops;
      fs := es;
    } else {
      var gs := AddBlock(l, s0, es, budget, k, ops, p);
      var next := ops[p := ops[p] + 1];
      assert ops' == next[p := next[p] + (m - 1)];
      fs := AddBlocks(l, s0, gs, budget, k + 1, next, p, m - 1, ops');
    }
  }

  lemma StartUp(l: Layout, s0: State, budget: nat) returns (es: seq<Event>)
    requires Fresh(l, s0) && s0.disk[l.start][0] == 0
    ensures Reaches(l, s0, es, budget, 0, map[0 := 0])
  {
    assert Thrifty(l, s0, [], budget);
    ThriftyExtend(l, s0, [], ReadHeader, budget);
    assert HeadEntries(s0.disk[l.start]) == [];
    ThriftyExtend(l, s0, [ReadHeader], Erase, budget);
    assert [ReadHeader] + [Erase] == [ReadHeader, Erase];
    ThriftyExtend(l, s0, [ReadHeader, Erase], Begin(0), budget);
    es := [ReadHeader, Erase] + [Begin(0)];
  }

  /** While operation 0 has written nothing, others in turn fill k blocks. */
  lemma {:induction false} FillTo(l: Layout, s0: State, budget: nat, k: nat) returns (es: seq<Event>)
    requires Fresh(l, s0) && s0.disk[l.start][0] == 0
    requires 1 <= budget && l.start + l.size + LOGSIZE <= l.blocks
    requires k <= MAXOPBLOCKS && k <= l.Capacity()
    ensures Reaches(l, s0, es, budget, k, map[0 := 0])
    decreases k
  {
    if k == 0 {
      es := StartUp(l, s0, budget);
    } else {
      es := FillTo(l, s0, budget, k - 1);
      ThriftyExtend(l, s0, es, Begin(1), budget);
      es := es + [Begin(1)];
      assert map[0 := 0][1 := 0] == map[0 := 0, 1 := 0];
      es := AddBlock(l, s0, es, budget, k - 1, map[0 := 0, 1 := 0], 1);
      ThriftyExtend(l, s0, es, End(1), budget);
      es := es + [End(1)];
      assert map[0 := 0, 1 := 0][1 := 1] - {1} == map[0 := 0];
    }
  }

  lemma BeginSecond(l: Layout, s0: State, budget: nat) returns (es: seq<Event>)
    requires Fresh(l, s0) && s0.disk[l.start][0] == 0
    requires 1 <= budget && l.start + l.size + LOGSIZE <= l.blocks
    requires MAXOPBLOCKS <= l.Capacity()
    ensures Reaches(l, s0, es, budget, MAXOPBLOCKS, map[0 := 0, 1 := 0])
  {
    es := FillTo(l, s0, budget, MAXOPBLOCKS);
    ThriftyExtend(l, s0, es, Begin(1), budget);
    es := es + [Begin(1)];
    assert map[0 := 0][1 := 0] == map[0 := 0, 1 := 0];
  }

  /** Operation 1, then operation 0, adds blocks. */
  lemma FillOn(l: Layout, s0: State, es: seq<Event>, budget: nat, k: nat, m: nat, n: nat,
               none: map<Proc, nat>, one: map<Proc, nat>, two: map<Proc, nat>)
    returns (fs: seq<Event>)
    requires none == map[0 := 0, 1 := 0] && one == map[0 := 0, 1 := m] && two == map[0 := n, 1 := m]
    requires Wf(l, s0) && Reaches(l, s0, es, budget, k, none)
    requires m <= budget && n <= budget && l.start + l.size + LOGSIZE <= l.blocks
    requires k + m + n <= l.Capacity()
    ensures Reaches(l, s0, fs, budget, k + m + n, two)
  {
    hide Reaches, Wf;
    Displays(none, one, two, n, m);
    var gs := AddBlocks(l, s0, es, budget, k, none, 1, m, one);
    fs := AddBlocks(l, s0, gs, budget, k + m, one, 0, n, two);
  }

  lemma Displays(none: map<Proc, nat>, one: map<Proc, nat>, two: map<Proc, nat>, n: nat, m: nat)
    requires none == map[0 := 0, 1 := 0] && one == map[0 := 0, 1 := m] && two == map[0 := n, 1 := m]
    ensures 1 in none && none[1] == 0 && one == none[1 := m] && one[1] == m
    ensures 0 in one && one[0] == 0 && two == one[0 := n] && two[0] == n
  {
  }

  /**
  A run that fills the log while operation 0 is outstanding: up to MAXOPBLOCKS operations of one block each while
  operation 0 has logged nothing yet, then operation 1 and operation 0 together.
  */
  lemma FillLog(l: Layout, s0: State, budget: nat) returns (es: seq<Event>)
    requires Fresh(l, s0) && s0.disk[l.start][0] == 0
    requires 1 <= budget <= MAXOPBLOCKS && l.start + l.size + LOGSIZE <= l.blocks
    requires l.Capacity() <= MAXOPBLOCKS + 2 * budget
    ensures Thrifty(l, s0, es, budget) && Exec(l, s0, es).value.ops != map[] && LogFull(l, Exec(l, s0, es).value)
  {
    var goal := l.Capacity();
    if goal <= MAXOPBLOCKS {
      es := FillTo(l, s0, budget, goal);
    } else {
      var m := if goal - MAXOPBLOCKS <= budget then goal - MAXOPBLOCKS else budget;
      es := BeginSecond(l, s0, budget);
      var n := goal - MAXOPBLOCKS - m;
      es := FillOn(l, s0, es, budget, MAXOPBLOCKS, m, n, map[0 := 0, 1 := 0], map[0 := 0, 1 := m], map[0 := n, 1 := m]);
    }
    assert 0 in Exec(l, s0, es).value.ops;
  }

  lemma {:induction false} ThriftyMonotone(l: Layout, s: State, es: seq<Event>, small: nat, large: nat)
    requires Wf(l, s) && Thrifty(l, s, es, small) && small <= large
    ensures Thrifty(l, s, es, large)
    decreases |es|
  {
    if es != [] {
      ThriftyMonotone(l, s, es[..|es| - 1], small, large);
    }
  }

  ghost function BlankDisk(l: Layout): (s: State)
    requires l.Valid()
    ensures Fresh(l, s) && s.disk[l.start][0] == 0
  {
    State(seq(l.blocks, _ => seq(WORDS, _ => 0)), map[], map[], {}, [], map[], ReadHead)
  }

  /**
  The exact condition. With operations that each add up to budget new blocks, the panic is
  unreachable if and only if MAXOPBLOCKS + 2 * budget is below both LOGSIZE and size - 1.
  */
  lemma PanicFreeIff(l: Layout, budget: nat)
    requires l.Valid() && l.start + l.size + LOGSIZE <= l.blocks && 1 <= budget
    ensures PanicFree(l, budget) <==> MAXOPBLOCKS + 2 * budget < l.Capacity()
  {
    if MAXOPBLOCKS + 2 * budget < l.Capacity() {
      forall s, es | Fresh(l, s) && Thrifty(l, s, es, budget) && Exec(l, s, es).value.ops != map[]
        ensures !LogFull(l, Exec(l, s, es).value)
      {
        EnoughSpace(l, s, es, budget);
      }
    } else {
      var s0 := BlankDisk(l);
      var small := if budget <= MAXOPBLOCKS then budget else MAXOPBLOCKS;
      var es := FillLog(l, s0, small);
      ThriftyMonotone(l, s0, es, small, budget);
    }
  }

  /** The file system mkfs builds (nlog = LOGSIZE): MAXOPBLOCKS - 1 is safe, MAXOPBLOCKS is not. */
  lemma MkfsLayout(l: Layout)
    requires l.Valid() && l.size == LOGSIZE && l.start + l.size + LOGSIZE <= l.blocks
    ensures PanicFree(l, MAXOPBLOCKS - 1)
    ensures !PanicFree(l, MAXOPBLOCKS)
  {
    PanicFreeIff(l, MAXOPBLOCKS - 1);
    PanicFreeIff(l, MAXOPBLOCKS);
  }
}
