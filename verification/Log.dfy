/**
The code of kernel/log.c. A Log object holds the in-memory log, the cached blocks and the
disk; every method appends to a ghost trace the machine events it performs, and Valid says
that executing the trace from boot leads exactly to the object's fields. So everything
proved about runs in LogTheorems and LogReservation holds of this code, with a crash
possible after any prefix of the trace.
*/
module LogCode {
  import opened Wrappers
  import opened LogMachine
  import opened LogSafety
  import opened LogTheorems

  /** The disk writes of a commit of n > 0 blocks. */
  function CommitEvents(n: nat): seq<Event> {
    seq(n, _ => Copy) + [CommitPoint] + seq(n, _ => InstallOne) + [Erase]
  }

  /** What one pass of write_log's loop does is the machine's Copy. */
  lemma CopyMatches(l: Layout, s: State, s': State, t: nat)
    requires Wf(l, s) && s.phase == CopyToLog(t) && t < |s.lh| && s.lh[t] in s.cache && s.lh[t] !in s.held
    requires var data := Cached(s, s.lh[t]);
             s' == s.(disk := s.disk[l.Slot(t) := data], cache := s.cache[s.lh[t] := data][l.Slot(t) := data],
                      phase := CopyToLog(t + 1))
    ensures Next(l, s, Copy) == Some(s')
  {
    assert s.cache[s.lh[t] := s.cache[s.lh[t]]] == s.cache;
  }

  lemma LoggedIsCached(l: Layout, s: State, t: nat)
    requires Wf(l, s) && Buffers(l, s) && s.phase == CopyToLog(t) && t < |s.lh|
    ensures s.lh[t] in s.cache
  {
    assert s.lh[t] in Pinned(s);
  }

  /** What one pass of install_trans's loop does is the machine's InstallOne. */
  lemma InstallMatches(l: Layout, s: State, s': State, t: nat)
    requires Wf(l, s) && t < |s.lh| && s.lh[t] !in s.held
    requires s.phase == Install(t) || s.phase == Reinstall(t)
    requires var data := Cached(s, l.Slot(t));
             s' == s.(disk := s.disk[s.lh[t] := data], cache := s.cache[l.Slot(t) := data][s.lh[t] := data],
                      phase := if s.phase.Install? then Install(t + 1) else Reinstall(t + 1))
    ensures Next(l, s, InstallOne) == Some(s')
  {
  }

  /** write_head with n > 0 is the machine's CommitPoint. */
  lemma CommitMatches(l: Layout, s: State, s': State)
    requires Wf(l, s) && s.phase == CopyToLog(|s.lh|) && s.lh != []
    requires var head := EncodeHead(Cached(s, l.start), s.lh);
             s' == s.(disk := s.disk[l.start := head], cache := s.cache[l.start := head], phase := Install(0))
    ensures Next(l, s, CommitPoint) == Some(s')
  {
  }

  /** write_head with n == 0 is the machine's Erase. */
  lemma EraseMatches(l: Layout, s: State, s': State)
    requires Wf(l, s) && (s.phase == Install(|s.lh|) || s.phase == Reinstall(|s.lh|))
    requires var head := EncodeHead(Cached(s, l.start), []);
             s' == s.(disk := s.disk[l.start := head], cache := s.cache[l.start := head], lh := [],
                      phase := if s.phase.Install? then Finishing else Idle)
    ensures Next(l, s, Erase) == Some(s')
  {
  }

  /** read_head is the machine's ReadHeader. */
  lemma ReadHeaderMatches(l: Layout, s: State, s': State)
    requires Wf(l, s) && s.phase.ReadHead? && GoodHead(l, Cached(s, l.start))
    requires s' == s.(cache := s.cache[l.start := Cached(s, l.start)], lh := HeadEntries(Cached(s, l.start)),
                      phase := Reinstall(0))
    ensures Next(l, s, ReadHeader) == Some(s') && |s'.lh| == Cached(s, l.start)[0]
  {
  }

  lemma EmptyLogContents(l: Layout, s: State, a: Abs)
    requires Good(l, s, a) && s.phase.Idle?
    ensures HomeContents(l, s.disk) == a.durable
  {
    assert HeadEntries(s.disk[l.start]) == [];
  }

  /** What follows the first critical section of end_op when no other operation is outstanding. */
  function LastEvents(n: nat): seq<Event> {
    (if n > 0 then CommitEvents(n) else []) + [Done]
  }

  /** The events of end_op by an operation that is, or is not, the last one. */
  function EndEvents(p: Proc, last: bool, n: nat): seq<Event> {
    [End(p)] + if last then LastEvents(n) else []
  }

  /** One more entry is copied into the header block. */
  lemma HeadMore(n: nat, entries: seq<nat>, before: Block, i: nat)
    requires i < |entries| && 2 + i <= WORDS
    ensures ([n] + entries[..i] + before[1 + i..])[i + 1 := entries[i]] == [n] + entries[..i + 1] + before[2 + i..]
  {
    var was, now := [n] + entries[..i] + before[1 + i..], [n] + entries[..i + 1] + before[2 + i..];
    assert |was| == |now| == WORDS;
    forall k | 0 <= k < WORDS ensures was[i + 1 := entries[i]][k] == now[k] { }
  }

  lemma QuietContents(l: Layout, s: State, a: Abs)
    requires Good(l, s, a) && s.phase.Idle? && s.ops == map[]
    ensures s.lh == [] && s.dirty == {} && a.current == a.durable == HomeContents(l, s.disk)
  {
    EmptyLogContents(l, s, a);
  }

  /** An operation that logs one block and commits. */
  function OneWrite(p: Proc, b: nat, data: Block): seq<Event> {
    Logging(p, b, data) + EndEvents(p, true, 1)
  }

  function Logging(p: Proc, b: nat, data: Block): seq<Event> {
    [Begin(p), Acquire(p, b), Modify(p, b, data), LogWrite(p, b, data), Release(p, b)]
  }

  lemma LoggingIs(t: seq<Event>, p: Proc, b: nat, data: Block)
    ensures t + [Begin(p)] + [Acquire(p, b)] + [Modify(p, b, data)] + [LogWrite(p, b, data)] + [Release(p, b)] ==
            t + Logging(p, b, data)
  {
  }

  lemma OneWriteAbs(a: Abs, begin: seq<Event>, p: Proc, b: nat, data: Block)
    ensures AbsExec(a, begin + OneWrite(p, b, data)).durable == AbsExec(a, begin).current[b := data]
  {
    var m := AbsExec(a, begin);
    AbsExecConcat(a, begin, OneWrite(p, b, data));
    AbsExecConcat(m, Logging(p, b, data), EndEvents(p, true, 1));
    LoggedAbs(m, p, b, data);
    EndEventsAre(p);
    QuietAbs(AbsExec(m, Logging(p, b, data)), EndEvents(p, true, 1));
  }

  lemma LoggedAbs(m: Abs, p: Proc, b: nat, data: Block)
    ensures AbsExec(m, Logging(p, b, data)) == m.(current := m.current[b := data])
  {
    hide AbsExec;
    LoggingIs([], p, b, data);
    AbsNothing(m);
    AbsThen(m, [], Begin(p));
    AbsThen(m, [] + [Begin(p)], Acquire(p, b));
    AbsThen(m, [] + [Begin(p)] + [Acquire(p, b)], Modify(p, b, data));
    AbsThen(m, [] + [Begin(p)] + [Acquire(p, b)] + [Modify(p, b, data)], LogWrite(p, b, data));
    AbsThen(m, [] + [Begin(p)] + [Acquire(p, b)] + [Modify(p, b, data)] + [LogWrite(p, b, data)], Release(p, b));
    assert [] + Logging(p, b, data) == Logging(p, b, data);
  }

  lemma AbsNothing(m: Abs)
    ensures AbsExec(m, []) == m
  {
  }

  lemma AbsThen(m: Abs, es: seq<Event>, e: Event)
    ensures AbsExec(m, es + [e]) == AbsNext(AbsExec(m, es), e)
  {
    assert (es + [e])[..|es|] == es;
  }

  lemma EndEventsAre(p: Proc)
    ensures EndEvents(p, true, 1) == [End(p), Copy, CommitPoint, InstallOne, Erase, Done]
  {
    assert seq(1, _ => Copy) == [Copy] && seq(1, _ => InstallOne) == [InstallOne];
  }

  lemma ConcatAssociates<T>(a: seq<T>, b: seq<T>, c: seq<T>)
    ensures a + b + c == a + (b + c)
  {
  }

  /** log_write with room in the log is the machine's LogWrite. */
  lemma LogWriteMatches(l: Layout, s: State, s': State, p: Proc, b: nat, added: bool)
    requires Wf(l, s) && p in s.ops && b in s.held && s.held[b] == p && l.Home(b) && !LogFull(l, s)
    requires added == (b !in s.lh)
    requires s'.disk == s.disk && s'.cache == s.cache && s'.held == s.held && s'.phase == s.phase
    requires s'.dirty == s.dirty - {b}
    requires s'.lh == if added then s.lh + [b] else s.lh
    requires s'.ops == if added then s.ops[p := s.ops[p] + 1] else s.ops
    ensures Next(l, s, LogWrite(p, b, s.cache[b])) == Some(s')
  {
  }

  class Log {
    const layout: Layout
    var disk: seq<Block>
    var cache: map<nat, Block>
    var held: map<nat, Proc>
    var outstanding: nat
    var committing: bool
    var n: nat
    var block: array<nat>

    ghost var dirty: set<nat>
    ghost var ops: map<Proc, nat>
    ghost var phase: Phase
    ghost const boot: State              // the state in which the machine came up
    ghost const contents: map<nat, Block>  // durable contents at boot
    ghost var trace: seq<Event>

    ghost predicate Shaped()
      reads this, block
    {
      && layout.Valid() && |disk| == layout.blocks
      && block.Length == LOGSIZE && n <= LOGSIZE
    }

    ghost function View(): State
      reads this, block
      requires Shaped()
    {
      State(disk, cache, held, dirty, block[..n], ops, phase)
    }

    /** No reader holds a block that is in the log, which bread would have to wait for. */
    ghost predicate LoggedAreFree()
      reads this`n, this`block, this`held, block
      requires n <= block.Length
    {
      forall i :: 0 <= i < n ==> block[i] !in held
    }

    ghost function Booted(): Abs {
      Abs(contents, contents, 0)
    }

    ghost predicate Valid()
      reads this, block
    {
      && Shaped()
      && outstanding == |ops|
      && committing == (phase.CopyToLog? || phase.Install? || phase.Finishing?)
      && Wf(layout, boot) && Good(layout, boot, Booted())
      && Exec(layout, boot, trace) == Some(View())
    }

    lemma Reached()
      requires Valid()
      ensures Good(layout, View(), AbsExec(Booted(), trace))
    {
      RunRefines(layout, boot, Booted(), trace);
    }

    lemma EntryInRange(i: nat)
      requires Valid() && i < n
      ensures layout.Home(block[i]) && block[i] == View().lh[i] && layout.Slot(i) < layout.start + layout.size <= |disk|
    {
      assert View().lh[i] == block[i];
    }

    lemma Bootable()
      requires Valid() && phase.ReadHead?
      ensures Wf(layout, View()) && GoodHead(layout, Cached(View(), layout.start))
      ensures Cached(View(), layout.start) == disk[layout.start]
    {
      hide Next, Exec;
      Reached();
    }

    lemma OpsMeanIdle(p: Proc)
      requires Valid() && p in ops
      ensures phase.Idle?
    {
      Reached();
    }

    lemma NothingHeld()
      requires Valid() && phase.Booting()
      ensures held == map[]
    {
      Reached();
    }

    lemma HeldIsCached(b: nat)
      requires Valid() && b in held
      ensures b in cache
    {
      assert Wf(layout, View());
    }

    // ---- buffers and the device ----

    method Bread(b: nat) returns (data: Block)
      requires Shaped() && b < |disk|
      modifies this`cache
      ensures data == Cached(old(View()), b) && cache == old(cache)[b := data]
    {
      if b !in cache {
        cache := cache[b := disk[b]];
      }
      data := cache[b];
    }

    method Bwrite(b: nat)
      requires b < |disk| && b in cache
      modifies this`disk
      ensures disk == old(disk)[b := cache[b]]
    {
      disk := disk[b := cache[b]];
    }

    // ---- the header ----

    method WriteHead()
      requires Shaped()
      modifies this`disk, this`cache
      ensures Shaped()
      ensures var head := EncodeHead(Cached(old(View()), layout.start), block[..n]);
              && disk == old(disk)[layout.start := head]
              && cache == old(cache)[layout.start := head]
    {
      var hb := Bread(layout.start);
      ghost var before, filled := hb, cache;
      hb := hb[0 := n];
      var i := 0;
      while i < n
        invariant 0 <= i <= n && |hb| == WORDS
        invariant cache == filled && disk == old(disk)
        invariant hb == [n] + block[..][..i] + before[1 + i..]
      {
        HeadMore(n, block[..], before, i);
        hb := hb[i + 1 := block[i]];
        i := i + 1;
      }
      assert block[..][..n] == block[..n];
      cache := cache[layout.start := hb];
      Bwrite(layout.start);
    }

    method ReadHead()
      requires Shaped() && GoodHead(layout, Cached(View(), layout.start))
      modifies this`cache, this`n, block
      ensures Shaped()
      ensures cache == old(cache)[layout.start := Cached(old(View()), layout.start)]
      ensures block[..n] == HeadEntries(Cached(old(View()), layout.start))
    {
      var hb := Bread(layout.start);
      assert GoodHead(layout, hb);
      ghost var filled := cache;
      n := hb[0];
      var i := 0;
      while i < n
        invariant 0 <= i <= n && n == hb[0] && cache == filled
        invariant block[..i] == hb[1..1 + i]
      {
        assert hb[1..2 + i] == hb[1..1 + i] + [hb[1 + i]];
        block[i] := hb[1 + i];
        assert block[..i + 1] == block[..i] + [hb[1 + i]];
        i := i + 1;
      }
      assert Shaped();
      assert block[..n] == HeadEntries(hb);
    }

    // ---- moving blocks ----

    /** Accounts for a step of the machine in the trace. */
    ghost method Record(e: Event, before: State)
      requires Shaped() && Wf(layout, boot) && Wf(layout, before)
      requires Exec(layout, boot, trace) == Some(before) && Next(layout, before, e) == Some(View())
      modifies this`trace
      ensures trace == old(trace) + [e] && Exec(layout, boot, trace) == Some(View())
    {
      Extend(layout, boot, trace, before, e);
      trace := trace + [e];
    }

    /** bread, memmove and bwrite: the pattern of write_log and install_trans. */
    method CopyBlock(source: nat, target: nat)
      requires Shaped() && source < |disk| && target < |disk|
      modifies this`disk, this`cache
      ensures var data := Cached(old(View()), source);
              && disk == old(disk)[target := data]
              && cache == old(cache)[source := data][target := data]
    {
      var data := Bread(source);
      var _ := Bread(target);
      cache := cache[target := data];
      Bwrite(target);
    }

    method WriteLogBlock(tail: nat)
      requires Valid() && phase == CopyToLog(tail) && tail < n && block[tail] !in held
      modifies this`disk, this`cache, this`phase, this`trace
      ensures Valid() && phase == CopyToLog(tail + 1)
      ensures trace == old(trace) + [Copy]
    {
      ghost var before := View();
      assert before.lh[tail] == block[tail];
      assert block[tail] in cache by {
        Reached();
        LoggedIsCached(layout, before, tail);
      }
      CopyBlock(block[tail], layout.start + tail + 1);
      phase := CopyToLog(tail + 1);
      CopyMatches(layout, before, View(), tail);
      Record(Copy, before);
    }

    method WriteLog()
      requires Valid() && phase == CopyToLog(0) && LoggedAreFree()
      modifies this`disk, this`cache, this`phase, this`trace
      ensures Valid() && phase == CopyToLog(n)
      ensures trace == old(trace) + seq(n, _ => Copy)
    {
      hide Good, Wf, Next, Exec;
      var tail := 0;
      while tail < n
        invariant 0 <= tail <= n
        invariant Valid() && phase == CopyToLog(tail)
        invariant trace == old(trace) + seq(tail, _ => Copy)
      {
        WriteLogBlock(tail);
        assert seq(tail + 1, _ => Copy) == seq(tail, _ => Copy) + [Copy];
        tail := tail + 1;
      }
    }

    method InstallBlock(tail: nat, recovering: bool)
      requires Valid() && tail < n && block[tail] !in held
      requires phase == if recovering then Reinstall(tail) else Install(tail)
      modifies this`disk, this`cache, this`phase, this`trace
      ensures Valid() && phase == if recovering then Reinstall(tail + 1) else Install(tail + 1)
      ensures trace == old(trace) + [InstallOne]
    {
      hide Good, Wf, Next, Exec;
      EntryInRange(tail);
      ghost var before := View();
      assert before.lh[tail] == block[tail];
      CopyBlock(layout.start + tail + 1, block[tail]);
      phase := if recovering then Reinstall(tail + 1) else Install(tail + 1);
      InstallMatches(layout, before, View(), tail);
      Record(InstallOne, before);
    }

    method InstallTrans(recovering: bool)
      requires Valid() && LoggedAreFree()
      requires phase == if recovering then Reinstall(0) else Install(0)
      modifies this`disk, this`cache, this`phase, this`trace
      ensures Valid() && phase == if recovering then Reinstall(n) else Install(n)
      ensures trace == old(trace) + seq(n, _ => InstallOne)
    {
      hide Good, Wf, Next, Exec;
      var tail := 0;
      while tail < n
        invariant 0 <= tail <= n
        invariant Valid() && phase == if recovering then Reinstall(tail) else Install(tail)
        invariant trace == old(trace) + seq(tail, _ => InstallOne)
      {
        InstallBlock(tail, recovering);
        assert seq(tail + 1, _ => InstallOne) == seq(tail, _ => InstallOne) + [InstallOne];
        tail := tail + 1;
      }
    }

    // ---- commit and recovery ----

    /** write_head in commit, after write_log: the transaction becomes durable here. */
    method WriteCommitHeader()
      requires Valid() && phase == CopyToLog(n) && n > 0
      modifies this`disk, this`cache, this`phase, this`trace
      ensures Valid() && phase == Install(0)
      ensures trace == old(trace) + [CommitPoint]
    {
      hide Good, Wf, Next, Exec;
      ghost var before := View();
      WriteHead();
      phase := Install(0);
      CommitMatches(layout, before, View());
      Record(CommitPoint, before);
    }

    /** log.lh.n = 0 and write_head: the log is empty again. */
    method ClearLog()
      requires Valid()
      requires phase == Install(n) || phase == Reinstall(n)
      modifies this`disk, this`cache, this`phase, this`trace, this`n
      ensures Valid() && n == 0 && phase == if old(phase).Install? then Finishing else Idle
      ensures trace == old(trace) + [Erase]
    {
      hide Good, Wf, Next, Exec;
      ghost var before := View();
      n := 0;
      assert block[..n] == [];
      WriteHead();
      phase := if phase.Install? then Finishing else Idle;
      EraseMatches(layout, before, View());
      Record(Erase, before);
    }

    method Commit()
      requires Valid() && LoggedAreFree()
      requires phase == if n > 0 then CopyToLog(0) else Finishing
      modifies this`disk, this`cache, this`phase, this`trace, this`n
      ensures Valid() && n == 0 && phase == Finishing
      ensures trace == old(trace) + if old(n) > 0 then CommitEvents(old(n)) else []
    {
      hide Good, Wf, Next, Exec;
      if n > 0 {
        WriteLog();
        WriteCommitHeader();
        InstallTrans(false);
        ghost var size := n;
        assert trace == old(trace) + (seq(size, _ => Copy) + [CommitPoint] + seq(size, _ => InstallOne));
        ClearLog();
      }
    }

    /** The rest of end_op for the operation that commits. */
    method CommitAndFinish()
      requires Valid() && committing && LoggedAreFree()
      requires phase == if n > 0 then CopyToLog(0) else Finishing
      modifies this`disk, this`cache, this`phase, this`trace, this`n, this`committing
      ensures Valid() && phase == Idle
      ensures trace == old(trace) + LastEvents(old(n))
    {
      hide Good, Wf, Next, Exec;
      Commit();
      LeaveCommit();
    }

    /** The second critical section of end_op. */
    method LeaveCommit()
      requires Valid() && phase == Finishing
      modifies this`phase, this`trace, this`committing
      ensures Valid() && phase == Idle
      ensures trace == old(trace) + [Done]
    {
      hide Good, Wf, Exec;
      ghost var before := View();
      committing := false;
      phase := Idle;
      Record(Done, before);
    }

    /** read_head as the first step of recovery. */
    method LoadHeader()
      requires Valid() && phase.ReadHead?
      modifies this`cache, this`phase, this`trace, this`n, block
      ensures Valid() && phase == Reinstall(0) && n == disk[layout.start][0]
      ensures trace == old(trace) + [ReadHeader]
    {
      hide Good, Wf, Next, Exec, HeadEntries, GoodHead;
      Bootable();
      ghost var before := View();
      ReadHead();
      phase := Reinstall(0);
      ReadHeaderMatches(layout, before, View());
      Record(ReadHeader, before);
    }

    method RecoverFromLog()
      requires Valid() && phase.ReadHead?
      modifies this`disk, this`cache, this`phase, this`trace, this`n, block
      ensures Valid() && n == 0 && phase == Idle
      ensures trace == old(trace) + RecoveryEvents(old(disk)[layout.start][0])
    {
      hide Good, Wf, Next, Exec;
      LoadHeader();
      NothingHeld();
      InstallTrans(true);
      ClearLog();
    }

    /** Boots from a disk on which replaying the log yields m; afterwards m is on disk. */
    constructor InitLog(l: Layout, image: seq<Block>, ghost m: map<nat, Block>)
      requires l.Valid() && |image| == l.blocks
      requires forall b :: b in m <==> l.Home(b)
      requires Recoverable(l, image, m)
      ensures Valid() && layout == l && fresh(block)
      ensures HomeContents(l, disk) == m && n == 0 && outstanding == 0 && phase == Idle
      ensures boot == State(image, map[], map[], {}, [], map[], Phase.ReadHead)
      ensures trace == RecoveryEvents(image[l.start][0])
    {
      layout, disk := l, image;
      cache, held, outstanding, committing, n := map[], map[], 0, false, 0;
      block := new nat[LOGSIZE];
      dirty, ops, phase, contents := {}, map[], Phase.ReadHead, m;
      boot := State(image, map[], map[], {}, [], map[], Phase.ReadHead);
      trace := [];
      new;
      assert block[..n] == [];
      CrashInv(l, boot, boot, Booted());
      RecoverFromLog();
      RecoveredAbs(Booted(), trace);
      Reached();
      EmptyLogContents(layout, View(), AbsExec(Booted(), trace));
    }

    // ---- operations ----

    /** One pass of begin_op's loop; when not admitted the caller sleeps and tries again. */
    method BeginOp(p: Proc) returns (admitted: bool)
      requires Valid() && !phase.Booting() && p !in ops
      modifies this`outstanding, this`ops, this`trace
      ensures Valid()
      ensures admitted == MayBegin(old(View()))
      ensures trace == old(trace) + if admitted then [Begin(p)] else []
      ensures ops == if admitted then old(ops)[p := 0] else old(ops)
    {
      hide Good, Wf, Exec;
      admitted := !(committing || n + (outstanding + 1) * MAXOPBLOCKS > LOGSIZE);
      if admitted {
        ghost var before := View();
        outstanding := outstanding + 1;
        ops := ops[p := 0];
        assert ops.Keys == old(ops.Keys) + {p};
        Record(Begin(p), before);
      }
    }

    /** The first critical section of end_op; the "log.committing" panic is unreachable. */
    method LeaveOp(p: Proc) returns (doCommit: bool)
      requires Valid() && p in ops && forall b <- held :: held[b] != p
      modifies this`phase, this`trace, this`outstanding, this`committing, this`ops
      ensures Valid() && ops == old(ops) - {p}
      ensures doCommit == committing == (ops == map[])
      ensures phase == if !doCommit then Idle else if n > 0 then CopyToLog(0) else Finishing
      ensures trace == old(trace) + [End(p)]
    {
      hide Good, Wf, Exec;
      ghost var before := View();
      assert phase.Idle? by { OpsMeanIdle(p); }
      assert !committing;
      doCommit := false;
      outstanding := outstanding - 1;
      ops := ops - {p};
      assert ops.Keys == old(ops.Keys) - {p};
      assert outstanding == |ops|;
      assert ops == map[] <==> |ops| == 0;
      if outstanding == 0 {
        doCommit := true;
        committing := true;
        phase := if n > 0 then CopyToLog(0) else Finishing;
      }
      Record(End(p), before);
    }

    /**
    The last operation to end commits. p itself holds no buffer, and no other process one that commit has to
    wait for; buffers of other blocks may be held all the while.
    */
    method EndOp(p: Proc) returns (doCommit: bool)
      requires Valid() && p in ops && LoggedAreFree() && forall b <- held :: held[b] != p
      modifies this`disk, this`cache, this`phase, this`trace, this`n, this`outstanding, this`committing, this`ops
      ensures Valid() && phase == Idle
      ensures ops == old(ops) - {p} && doCommit == (ops == map[])
      ensures trace == old(trace) + EndEvents(p, doCommit, old(n))
    {
      hide Good, Wf, Next, Exec;
      doCommit := LeaveOp(p);
      if doCommit {
        CommitAndFinish();
        ConcatAssociates(old(trace), [End(p)], LastEvents(old(n)));
      }
    }

    /** The absorption search: the index of b in the log, or n. */
    method FindInLog(b: nat) returns (i: nat)
      requires Shaped()
      ensures i <= n && (i < n ==> block[i] == b)
      ensures i == n <==> b !in block[..n]
    {
      i := 0;
      while i < n && block[i] != b
        invariant 0 <= i <= n
        invariant forall j :: 0 <= j < i ==> block[j] != b
      {
        i := i + 1;
      }
    }

    /** Enters b in the log unless it is there already; true when it is new (and so pinned). */
    method Absorb(b: nat) returns (added: bool)
      requires Shaped() && n < LOGSIZE
      modifies this`n, block
      ensures Shaped() && added == (b !in old(block[..n]))
      ensures block[..n] == if added then old(block[..n]) + [b] else old(block[..n])
    {
      var i := FindInLog(b);
      added := i == n;
      ghost var entries := block[..n];
      block[i] := b;
      if added {
        n := n + 1;
      }
      assert block[..n] == if added then entries + [b] else entries;
    }

    /** log_write past its panic checks. */
    method AppendToLog(p: Proc, b: nat)
      requires Valid() && p in ops && !LogFull(layout, View())
      requires b in held && held[b] == p && layout.Home(b)
      modifies this`n, this`trace, this`dirty, this`ops, block
      ensures Valid()
      ensures block[..n] == if b in old(block[..n]) then old(block[..n]) else old(block[..n]) + [b]
      ensures dirty == old(dirty) - {b} && ops.Keys == old(ops).Keys
      ensures trace == old(trace) + [LogWrite(p, b, cache[b])]
    {
      hide Good, Wf, Next, Exec;
      HeldIsCached(b);
      ghost var before := View();
      var added := Absorb(b);
      ops := if added then ops[p := ops[p] + 1] else ops;
      assert ops.Keys == before.ops.Keys;
      dirty := dirty - {b};
      LogWriteMatches(layout, before, View(), p, b, added);
      Record(LogWrite(p, b, cache[b]), before);
    }

    /** False is the panic "too big a transaction"; inside an operation the other panic cannot happen. */
    method LogWriteBlock(p: Proc, b: nat) returns (ok: bool)
      requires Valid() && p in ops
      requires b in held && held[b] == p && layout.Home(b)
      modifies this`n, this`trace, this`dirty, this`ops, block
      ensures Valid()
      ensures ok == !LogFull(layout, old(View()))
      ensures block[..n] == if ok && b !in old(block[..n]) then old(block[..n]) + [b] else old(block[..n])
      ensures dirty == (if ok then old(dirty) - {b} else old(dirty)) && ops.Keys == old(ops).Keys
      ensures trace == old(trace) + if ok then [LogWrite(p, b, cache[b])] else []
    {
      hide Good, Wf, Next, Exec;
      if n >= LOGSIZE || n >= layout.size - 1 {
        return false;
      }
      assert outstanding >= 1;
      HeldIsCached(b);
      AppendToLog(p, b);
      ok := true;
    }

    // ---- buffers, as begin_op's and end_op's callers use them ----

    /** bread of a home block; when another process holds the buffer the caller sleeps and tries again. */
    method Lock(p: Proc, b: nat) returns (got: bool)
      requires Valid() && !phase.Booting() && layout.Home(b)
      modifies this`cache, this`held, this`trace
      ensures Valid() && got == (b !in old(held))
      ensures got ==> held == old(held)[b := p] && trace == old(trace) + [Acquire(p, b)]
      ensures got ==> cache == old(cache)[b := Cached(old(View()), b)]
      ensures !got ==> held == old(held) && cache == old(cache) && trace == old(trace)
    {
      hide Good, Wf, Exec;
      got := b !in held;
      if got {
        ghost var before := View();
        var _ := Bread(b);
        held := held[b := p];
        Record(Acquire(p, b), before);
      }
    }

    /** A store into b->data inside an operation; log_write is to follow. */
    method Store(p: Proc, b: nat, data: Block)
      requires Valid() && p in ops && b in held && held[b] == p
      modifies this`cache, this`dirty, this`trace
      ensures Valid() && cache == old(cache)[b := data] && dirty == old(dirty) + {b}
      ensures trace == old(trace) + [Modify(p, b, data)]
    {
      hide Good, Wf, Exec;
      ghost var before := View();
      cache := cache[b := data];
      dirty := dirty + {b};
      Record(Modify(p, b, data), before);
    }

    /** brelse of a buffer that is unchanged since bread or since its last log_write. */
    method Unlock(p: Proc, b: nat)
      requires Valid() && b in held && held[b] == p && b !in dirty
      modifies this`held, this`trace
      ensures Valid() && held == old(held) - {b} && trace == old(trace) + [Release(p, b)]
    {
      hide Good, Wf, Exec;
      ghost var before := View();
      held := held - {b};
      Record(Release(p, b), before);
    }

    /** bget gives the buffer of b, which nobody holds and bpin does not keep, to another block. */
    method Recycle(b: nat)
      requires Valid() && b in cache && b !in held && b !in Pinned(View())
      modifies this`cache, this`trace
      ensures Valid() && cache == old(cache) - {b} && trace == old(trace) + [Evict(b)]
    {
      hide Good, Wf, Exec;
      ghost var before := View();
      cache := cache - {b};
      Record(Evict(b), before);
    }

    /** Between operations the log is empty and the disk is what was last logged. */
    lemma Settled()
      requires Valid() && phase == Idle && ops == map[]
      ensures var a := AbsExec(Booted(), trace);
              n == 0 && dirty == {} && a.current == a.durable == HomeContents(layout, disk)
    {
      hide Next, Exec, HomeContents, AbsExec;
      Reached();
      QuietContents(layout, View(), AbsExec(Booted(), trace));
    }

    /**
    A whole operation that writes one block while no other is under way, as a system call does it: when it
    returns, just that block has changed on disk, and the log is empty again.
    */
    method WriteOne(p: Proc, b: nat, data: Block)
      requires Valid() && phase == Idle && ops == map[] && layout.Home(b) && b !in held
      requires forall c <- held :: held[c] != p
      modifies this, block
      ensures Valid() && phase == Idle && ops == map[] && held == old(held) && n == 0
      ensures HomeContents(layout, disk) == HomeContents(layout, old(disk))[b := data]
    {
      hide Good, Wf, Next, Exec, HomeContents, AbsExec, EndEvents, Logging;
      Settled();
      ghost var begin := trace;
      LogOne(p, b, data);
      var _ := EndOp(p);
      assert trace == begin + OneWrite(p, b, data);
      OneWriteAbs(Booted(), begin, p, b, data);
      Settled();
    }

    lemma InShape()
      requires Valid()
      ensures Shaped() && layout.Valid() && n <= block.Length
    {
    }

    method LogOne(p: Proc, b: nat, data: Block)
      requires Valid() && phase == Idle && ops == map[] && n == 0 && layout.Home(b) && b !in held
      requires forall c <- held :: held[c] != p
      modifies this`outstanding, this`ops, this`cache, this`held, this`dirty, this`n, this`trace, block
      ensures Valid() && phase == Idle && held == old(held) && ops.Keys == {p} && n == 1 && LoggedAreFree()
      ensures trace == old(trace) + Logging(p, b, data)
    {
      hide Good, Wf, Next, Exec, Valid, Shaped, Logging;
      assert dirty == {} by { Settled(); }
      InShape();
      var admitted := BeginOp(p);
      PutBlock(p, b, data);
      LoggingIs(old(trace), p, b, data);
    }

    /** bread, a store, log_write and brelse, for the first block of a group. */
    method PutBlock(p: Proc, b: nat, data: Block)
      requires Valid() && phase == Idle && p in ops && n == 0 && layout.Home(b) && b !in held
      modifies this`ops, this`cache, this`held, this`dirty, this`n, this`trace, block
      ensures Valid() && held == old(held) && ops.Keys == old(ops).Keys && n == 1 && LoggedAreFree()
      ensures trace ==
                old(trace) + [Acquire(p, b)] + [Modify(p, b, data)] + [LogWrite(p, b, data)] + [Release(p, b)]
    {
      hide Good, Wf, Next, Exec, Valid, Shaped;
      InShape();
      var got := Lock(p, b);
      Store(p, b, data);
      InShape();
      var ok := LogWriteBlock(p, b);
      InShape();
      OnlyEntry(b);
      Unlock(p, b);
    }

    lemma OnlyEntry(b: nat)
      requires n <= block.Length && block[..n] == [b]
      ensures n == 1 && block[0] == b
    {
      assert block[..n][0] == b;
    }
  }
}
