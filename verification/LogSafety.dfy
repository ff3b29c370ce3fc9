/**
Crash atomicity of the log: the machine of LogMachine refines a disk whose contents change
atomically at commit points and revert to the last commit point at a crash.
*/
module LogSafety {
  import opened Wrappers
  import opened LogMachine

  /** What holds between any two steps, in particular wherever the power may fail. */
  ghost predicate Inv(l: Layout, s: State) {
    && Wf(l, s)
    && Buffers(l, s)
    && OnDisk(l, s)
    && (s.ops != map[] ==> s.phase.Idle?)
    && (s.phase.Idle? && s.ops == map[] ==> s.lh == [])
  }

  /** A pinned buffer stays cached; a buffer neither being modified nor pinned equals its disk block. */
  ghost predicate Buffers(l: Layout, s: State)
    requires Wf(l, s)
  {
    && (forall b :: b in s.cache ==> b < l.blocks)
    && (forall b :: b in s.held ==> l.Home(b) && !s.phase.Booting())
    && (forall b :: b in s.dirty ==> b in s.held && s.held[b] in s.ops)
    && (forall b :: b in Pinned(s) ==> b in s.cache)
    && (forall b :: b in s.cache && b !in s.dirty && b !in Pinned(s) ==> s.cache[b] == s.disk[b])
  }

  ghost predicate OnDisk(l: Layout, s: State)
    requires Wf(l, s)
  {
    var head := s.disk[l.start];
    match s.phase
    case Idle => head[0] == 0
    case Finishing => head[0] == 0 && s.lh == []
    case CopyToLog(t) =>
      && head[0] == 0 && s.lh != []
      && (forall i :: 0 <= i < t ==> s.disk[l.Slot(i)] == Cached(s, s.lh[i]))
    case Install(t) =>
      && head[0] == |s.lh| && HeadEntries(head) == s.lh
      && (forall i :: t <= i < |s.lh| ==> s.disk[l.Slot(i)] == Cached(s, s.lh[i]))
      && (forall i :: 0 <= i < t ==> s.disk[s.lh[i]] == s.disk[l.Slot(i)])
    case ReadHead => GoodHead(l, head) && s.cache == map[] && s.lh == []
    case Reinstall(t) =>
      && head[0] == |s.lh| && HeadEntries(head) == s.lh
      && (forall i :: 0 <= i < t ==> s.disk[s.lh[i]] == s.disk[l.Slot(i)])
  }

  /** The abstract disk. Both maps range over the home blocks. */
  datatype Abs = Abs(
    current: map<nat, Block>,  // as of the last log_write of each block
    durable: map<nat, Block>,  // as of the last commit point
    group: nat)                // commit points passed

  /** The abstract machine: only log_write, the commit point and a crash do anything. */
  function AbsNext(a: Abs, e: Event): Abs {
    match e
    case LogWrite(_, b, data) => a.(current := a.current[b := data])
    case CommitPoint => a.(durable := a.current, group := a.group + 1)
    case Crash => a.(current := a.durable)
    case _ => a
  }

  function AbsExec(a: Abs, es: seq<Event>): Abs {
    if es == [] then a else AbsNext(AbsExec(a, es[..|es| - 1]), es[|es| - 1])
  }

  ghost predicate Refines(l: Layout, s: State, a: Abs)
    requires Wf(l, s)
  {
    && (forall b :: b in a.current <==> l.Home(b))
    && (forall b :: b in a.durable <==> l.Home(b))
    && (s.phase.Booting() ==> a.current == a.durable)
    && (!s.phase.Booting() ==> forall b: nat :: l.Home(b) && b !in s.dirty ==> a.current[b] == Cached(s, b))
    && Recoverable(l, s.disk, a.durable)
  }

  /** Replaying the log named by the header on disk yields m. */
  ghost predicate Recoverable(l: Layout, disk: seq<Block>, m: map<nat, Block>)
    requires l.Valid() && |disk| == l.blocks
    requires forall b :: b in m <==> l.Home(b)
  {
    var head := disk[l.start];
    && GoodHead(l, head)
    && (forall i :: 0 <= i < head[0] ==> m[HeadEntries(head)[i]] == disk[l.Slot(i)])
    && (forall b: nat :: l.Home(b) && b !in HeadEntries(head) ==> m[b] == disk[b])
  }

  ghost predicate Good(l: Layout, s: State, a: Abs) {
    Inv(l, s) && Refines(l, s, a)
  }

  // ---- each step keeps the invariant and the refinement ----

  lemma HeadRoundTrip(hb: Block, lh: seq<nat>)
    requires |lh| <= LOGSIZE
    ensures EncodeHead(hb, lh)[0] == |lh|
    ensures HeadEntries(EncodeHead(hb, lh)) == lh
  {
  }

  /** A step that leaves the disk, the log and the phase alone keeps OnDisk. */
  lemma OnDiskFrame(l: Layout, s: State, s': State)
    requires Wf(l, s) && OnDisk(l, s) && Wf(l, s')
    requires s'.disk == s.disk && s'.lh == s.lh && s'.phase == s.phase
    requires s.phase.CopyToLog? || s.phase.Install? ==> forall b :: b in s.lh ==> Cached(s', b) == Cached(s, b)
    requires s.phase.ReadHead? ==> s'.cache == map[]
    ensures OnDisk(l, s')
  {
  }

  /** Only what bread returns and what replaying the log yields matter to the refinement. */
  lemma RefinesFrame(l: Layout, s: State, s': State, a: Abs)
    requires Wf(l, s) && Refines(l, s, a) && Wf(l, s')
    requires s'.disk == s.disk || Recoverable(l, s'.disk, a.durable)
    requires s'.phase.Booting() == s.phase.Booting()
    requires s.phase.Booting() ||
             forall b: nat :: l.Home(b) && b !in s'.dirty ==> b !in s.dirty && Cached(s', b) == Cached(s, b)
    ensures Refines(l, s', a)
  {
  }

  /** Steps on buffers and operations only. */
  lemma BufferStep(l: Layout, s: State, s': State, a: Abs)
    requires Good(l, s, a) && Wf(l, s') && Buffers(l, s')
    requires s'.disk == s.disk && s'.lh == s.lh && s'.phase == s.phase && !s.phase.ReadHead?
    requires s'.ops == s.ops || (s.phase.Idle? && s'.ops != map[])
    requires s'.dirty == s.dirty || s.phase.Idle?
    requires forall c: nat :: c < l.blocks && c !in s'.dirty ==> c !in s.dirty && Cached(s', c) == Cached(s, c)
    ensures Good(l, s', a)
  {
    assert OnDisk(l, s') by { OnDiskFrame(l, s, s'); }
    assert Refines(l, s', a) by { RefinesFrame(l, s, s', a); }
  }

  lemma BeginStep(l: Layout, s: State, s': State, a: Abs, p: Proc)
    requires Good(l, s, a) && s.phase.Idle? && s' == s.(ops := s.ops[p := 0]) && p !in s.ops
    ensures Good(l, s', a)
  {
    assert Pinned(s') == Pinned(s) && p in s'.ops;
    BufferStep(l, s, s', a);
  }

  lemma EndStep(l: Layout, s: State, a: Abs, p: Proc)
    requires Good(l, s, a) && Next(l, s, End(p)).Some?
    ensures Good(l, Next(l, s, End(p)).value, a)
  {
    hide OnDisk, Buffers, Refines, Recoverable;
    var s' := Next(l, s, End(p)).value;
    EndBuffers(l, s, s', p);
    EndOnDisk(l, s, s', p);
    RefinesFrame(l, s, s', a);
  }

  lemma EndBuffers(l: Layout, s: State, s': State, p: Proc)
    requires Wf(l, s) && Buffers(l, s) && Next(l, s, End(p)) == Some(s')
    ensures Wf(l, s') && Buffers(l, s') && s'.dirty == s.dirty && s'.phase.Booting() == s.phase.Booting()
    ensures forall b: nat :: b < l.blocks ==> Cached(s', b) == Cached(s, b)
  {
    assert Pinned(s') == Pinned(s);
  }

  lemma EndOnDisk(l: Layout, s: State, s': State, p: Proc)
    requires Inv(l, s) && Next(l, s, End(p)) == Some(s') && Wf(l, s')
    ensures s'.disk == s.disk && OnDisk(l, s')
    ensures (s'.ops != map[] ==> s'.phase.Idle?) && (s'.phase.Idle? && s'.ops == map[] ==> s'.lh == [])
  {
    hide Buffers;
  }

  lemma AcquireBuffers(l: Layout, s: State, s': State, p: Proc, b: nat)
    requires Wf(l, s) && Buffers(l, s) && !s.phase.Booting() && l.Home(b) && b !in s.held
    requires s' == s.(held := s.held[b := p], cache := s.cache[b := Cached(s, b)])
    ensures Wf(l, s') && Buffers(l, s') && s'.dirty == s.dirty
    ensures forall c: nat :: c < l.blocks ==> Cached(s', c) == Cached(s, c)
  {
    assert b !in s.dirty && Pinned(s') == Pinned(s);
  }

  lemma ModifyBuffers(l: Layout, s: State, s': State, p: Proc, b: nat, data: Block)
    requires Wf(l, s) && Buffers(l, s) && b in s.held && s.held[b] == p && p in s.ops
    requires s' == s.(cache := s.cache[b := data], dirty := s.dirty + {b})
    ensures Wf(l, s') && Buffers(l, s')
    ensures forall c: nat :: c < l.blocks && c !in s'.dirty ==> c !in s.dirty && Cached(s', c) == Cached(s, c)
  {
    assert Pinned(s') == Pinned(s);
  }

  lemma ReleaseBuffers(l: Layout, s: State, s': State, b: nat)
    requires Wf(l, s) && Buffers(l, s) && b in s.held && b !in s.dirty && s' == s.(held := s.held - {b})
    ensures Wf(l, s') && Buffers(l, s') && !s.phase.Booting()
    ensures forall c: nat :: c < l.blocks ==> Cached(s', c) == Cached(s, c)
  {
    assert Pinned(s') == Pinned(s);
  }

  lemma EvictBuffers(l: Layout, s: State, s': State, b: nat)
    requires Wf(l, s) && Buffers(l, s) && b in s.cache && b !in s.held && b !in Pinned(s)
    requires s' == s.(cache := s.cache - {b})
    ensures Wf(l, s') && Buffers(l, s')
    ensures forall c: nat :: c < l.blocks ==> Cached(s', c) == Cached(s, c)
  {
    assert b !in s.dirty && Pinned(s') == Pinned(s);
  }

  lemma DoneStep(l: Layout, s: State, s': State, a: Abs)
    requires Good(l, s, a) && s.phase.Finishing? && s' == s.(phase := Idle)
    ensures Good(l, s', a)
  {
    assert Pinned(s') == Pinned(s);
    RefinesFrame(l, s, s', a);
  }

  ghost predicate LogWritten(l: Layout, s: State, s': State, p: Proc, b: nat, data: Block) {
    && Wf(l, s) && Wf(l, s')
    && b in s.held && s.held[b] == p && p in s.ops && s.cache[b] == data && l.Home(b)
    && s'.disk == s.disk && s'.cache == s.cache && s'.held == s.held && s'.phase == s.phase
    && s'.dirty == s.dirty - {b}
    && s'.lh == (if b in s.lh then s.lh else s.lh + [b])
    && s'.ops.Keys == s.ops.Keys
  }

  lemma LogWriteInv(l: Layout, s: State, s': State, p: Proc, b: nat, data: Block)
    requires Inv(l, s) && LogWritten(l, s, s', p, b, data)
    ensures Inv(l, s')
  {
    assert s.phase.Idle? && p in s'.ops;
    assert forall c :: c in Pinned(s') <==> c in Pinned(s) || c == b;
  }

  lemma LogWriteRefines(l: Layout, s: State, s': State, a: Abs, p: Proc, b: nat, data: Block)
    requires Wf(l, s) && Refines(l, s, a) && LogWritten(l, s, s', p, b, data)
    requires s.phase.Idle?
    ensures Refines(l, s', AbsNext(a, LogWrite(p, b, data)))
  {
    var a' := AbsNext(a, LogWrite(p, b, data));
    assert forall c: nat :: l.Home(c) ==> Cached(s', c) == Cached(s, c);
    forall c: nat | l.Home(c) && c !in s'.dirty
      ensures a'.current[c] == Cached(s', c)
    {
      assert c == b || c !in s.dirty;
    }
  }

  /** One block of write_log: the log block is free for use while the header says n == 0. */
  lemma CopyInv(l: Layout, s: State, s': State, data: Block)
    requires Inv(l, s) && Wf(l, s')
    requires s.phase.CopyToLog? && s.phase.tail < |s.lh| && data == Cached(s, s.lh[s.phase.tail])
    requires s' == Write(s, l.Slot(s.phase.tail), data).(phase := CopyToLog(s.phase.tail + 1))
    ensures Inv(l, s')
  {
    assert Pinned(s') == Pinned(s);
    assert forall b: nat :: l.Home(b) ==> Cached(s', b) == Cached(s, b);
    assert s'.disk[l.start] == s.disk[l.start];
  }

  /** A write to the log area changes nothing recoverable while the header says n == 0. */
  lemma CopyRecoverable(l: Layout, disk: seq<Block>, m: map<nat, Block>, t: nat, data: Block)
    requires l.Valid() && |disk| == l.blocks
    requires forall b :: b in m <==> l.Home(b)
    requires Recoverable(l, disk, m) && disk[l.start][0] == 0 && l.Slot(t) < l.start + l.size
    ensures Recoverable(l, disk[l.Slot(t) := data], m)
  {
  }

  lemma CopyRefines(l: Layout, s: State, s': State, a: Abs, t: nat, data: Block)
    requires Wf(l, s) && Refines(l, s, a) && Wf(l, s')
    requires s.phase == CopyToLog(t) && s.disk[l.start][0] == 0 && t < |s.lh|
    requires s' == Write(s, l.Slot(t), data).(phase := CopyToLog(t + 1))
    ensures Refines(l, s', a)
  {
    assert forall b: nat :: l.Home(b) ==> Cached(s', b) == Cached(s, b);
    CopyRecoverable(l, s.disk, a.durable, t, data);
    RefinesFrame(l, s, s', a);
  }

  lemma CommitPointBuffers(l: Layout, s: State, s': State, head: Block)
    requires Wf(l, s) && Buffers(l, s) && s.phase.CopyToLog? && Wf(l, s')
    requires s' == Write(s, l.start, head).(phase := Install(0))
    ensures Buffers(l, s')
  {
    assert Pinned(s') == Pinned(s);
  }

  lemma CommitPointOnDisk(l: Layout, s: State, s': State, head: Block)
    requires Wf(l, s) && OnDisk(l, s) && s.phase == CopyToLog(|s.lh|) && Wf(l, s')
    requires head[0] == |s.lh| && HeadEntries(head) == s.lh
    requires s' == Write(s, l.start, head).(phase := Install(0))
    ensures OnDisk(l, s')
  {
    assert s'.disk[l.start] == head;
    forall i | 0 <= i < |s.lh|
      ensures s'.disk[l.Slot(i)] == s.disk[l.Slot(i)] == Cached(s', s.lh[i])
    {
    }
  }

  /** Writing a header makes the blocks it names recoverable from their log copies. */
  lemma CommitRecoverable(l: Layout, disk: seq<Block>, head: Block, lh: seq<nat>, m: map<nat, Block>)
    requires l.Valid() && |disk| == l.blocks
    requires forall b :: b in m <==> l.Home(b)
    requires GoodEntries(l, lh) && head[0] == |lh| && HeadEntries(head) == lh
    requires forall i :: 0 <= i < |lh| ==> m[lh[i]] == disk[l.Slot(i)]
    requires forall b: nat :: l.Home(b) && b !in lh ==> m[b] == disk[b]
    ensures Recoverable(l, disk[l.start := head], m)
  {
  }

  /** The header write makes the whole group durable at once. */
  lemma CommitPointRefines(l: Layout, s: State, s': State, a: Abs)
    requires Wf(l, s) && Wf(l, s') && Refines(l, s, a)
    requires !s.phase.Booting() && !s'.phase.Booting() && s'.dirty == s.dirty
    requires Recoverable(l, s'.disk, a.current)
    requires forall b: nat :: l.Home(b) ==> Cached(s', b) == Cached(s, b)
    ensures Refines(l, s', AbsNext(a, CommitPoint))
  {
  }

  /** At the end of write_log the current contents are either logged or already on disk. */
  lemma CurrentIsLogged(l: Layout, s: State, a: Abs, head: Block)
    requires Wf(l, s) && Buffers(l, s) && OnDisk(l, s) && Refines(l, s, a)
    requires s.phase == CopyToLog(|s.lh|) && s.dirty == {}
    requires head[0] == |s.lh| && HeadEntries(head) == s.lh
    ensures Recoverable(l, s.disk[l.start := head], a.current)
  {
    forall b: nat | l.Home(b) && b !in s.lh
      ensures a.current[b] == s.disk[b]
    {
      assert b !in Pinned(s);
    }
    CommitRecoverable(l, s.disk, head, s.lh, a.current);
  }

  ghost predicate Installed(l: Layout, s: State, s': State, t: nat, data: Block) {
    && Wf(l, s) && Wf(l, s')
    && (s.phase == Install(t) || s.phase == Reinstall(t))
    && t < |s.lh| && data == s.disk[l.Slot(t)]
    && s'.disk == s.disk[s.lh[t] := data]
    && s'.cache == s.cache[l.Slot(t) := data][s.lh[t] := data]
    && s'.lh == s.lh && s'.held == s.held && s'.dirty == s.dirty && s'.ops == s.ops
    && s'.phase == if s.phase.Install? then Install(t + 1) else Reinstall(t + 1)
  }

  lemma InstallBuffers(l: Layout, s: State, s': State, t: nat, data: Block)
    requires Wf(l, s) && Buffers(l, s) && s.dirty == {} && Installed(l, s, s', t, data)
    ensures Buffers(l, s')
  {
    assert s.phase.Install? ==> Pinned(s) == [s.lh[t]] + Pinned(s');
    assert Pinned(s') == (if s.phase.Install? then s.lh[t + 1..] else []);
  }

  lemma InstallOnDisk(l: Layout, s: State, s': State, t: nat, data: Block)
    requires Wf(l, s) && OnDisk(l, s) && Installed(l, s, s', t, data)
    ensures OnDisk(l, s')
  {
    assert s'.disk[l.start] == s.disk[l.start];
    forall i | 0 <= i < |s.lh|
      ensures s'.disk[l.Slot(i)] == s.disk[l.Slot(i)]
      ensures i != t ==> Cached(s', s.lh[i]) == Cached(s, s.lh[i]) && s'.disk[s.lh[i]] == s.disk[s.lh[i]]
    {
    }
  }

  /** Installing an entry does not change what replaying the log yields. */
  lemma InstallRecoverable(l: Layout, disk: seq<Block>, m: map<nat, Block>, t: nat)
    requires l.Valid() && |disk| == l.blocks
    requires forall b :: b in m <==> l.Home(b)
    requires Recoverable(l, disk, m) && t < disk[l.start][0]
    ensures Recoverable(l, disk[HeadEntries(disk[l.start])[t] := disk[l.Slot(t)]], m)
  {
    var lh := HeadEntries(disk[l.start]);
    assert l.Home(lh[t]);
  }

  /** Home blocks read the same through the cache before and after an installation. */
  lemma InstallCached(l: Layout, s: State, s': State, t: nat, data: Block, b: nat)
    requires Installed(l, s, s', t, data) && l.Home(b) && data == Cached(s, s.lh[t])
    ensures Cached(s', b) == Cached(s, b)
  {
  }

  lemma InstallRefines(l: Layout, s: State, s': State, a: Abs, t: nat, data: Block)
    requires Wf(l, s) && Refines(l, s, a) && Installed(l, s, s', t, data)
    requires s.disk[l.start][0] == |s.lh| && HeadEntries(s.disk[l.start]) == s.lh
    requires s.phase.Install? ==> data == Cached(s, s.lh[t])
    ensures Refines(l, s', a)
  {
    if s.phase.Install? {
      forall b: nat | l.Home(b)
        ensures Cached(s', b) == Cached(s, b)
      {
        InstallCached(l, s, s', t, data, b);
      }
    }
    InstallRecoverable(l, s.disk, a.durable, t);
    RefinesFrame(l, s, s', a);
  }

  /** Once every entry is installed, the home blocks on disk are what replaying would yield. */
  lemma AllInstalled(l: Layout, s: State, a: Abs)
    requires Good(l, s, a)
    requires (s.phase.Install? || s.phase.Reinstall?) && s.phase.tail == |s.lh|
    ensures forall b: nat :: l.Home(b) ==> s.disk[b] == a.durable[b]
  {
    forall b: nat | l.Home(b) && b in s.lh
      ensures s.disk[b] == a.durable[b]
    {
      var i :| 0 <= i < |s.lh| && s.lh[i] == b;
    }
  }

  ghost predicate Erased(l: Layout, s: State, s': State, head: Block) {
    && Wf(l, s) && Wf(l, s')
    && (s.phase.Install? || s.phase.Reinstall?) && s.phase.tail == |s.lh|
    && head[0] == 0 && HeadEntries(head) == []
    && s' == Write(s, l.start, head).(lh := [], phase := if s.phase.Install? then Finishing else Idle)
  }

  lemma EraseInv(l: Layout, s: State, s': State, head: Block)
    requires Inv(l, s) && Erased(l, s, s', head)
    ensures Inv(l, s')
  {
    assert Pinned(s) == [] == Pinned(s');
  }

  lemma EraseRefines(l: Layout, s: State, s': State, a: Abs, head: Block)
    requires Good(l, s, a) && Erased(l, s, s', head)
    ensures Refines(l, s', a)
  {
    AllInstalled(l, s, a);
    assert Pinned(s) == [] && s.dirty == {};
    assert s'.disk[l.start] == head;
    assert forall b: nat :: l.Home(b) ==> s'.disk[b] == s.disk[b] && Cached(s', b) == s.disk[b];
  }

  lemma CrashInv(l: Layout, s: State, s': State, a: Abs)
    requires Wf(l, s) && Refines(l, s, a) && Wf(l, s')
    requires s' == State(s.disk, map[], map[], {}, [], map[], ReadHead)
    ensures Inv(l, s')
  {
  }

  lemma CrashRefines(l: Layout, s: State, s': State, a: Abs)
    requires Wf(l, s) && Refines(l, s, a) && Wf(l, s')
    requires s'.disk == s.disk && s'.phase == ReadHead
    ensures Refines(l, s', AbsNext(a, Crash))
  {
  }

  lemma ReadHeaderStep(l: Layout, s: State, s': State, a: Abs)
    requires Good(l, s, a) && Wf(l, s') && s.phase.ReadHead?
    requires s' == s.(cache := s.cache[l.start := s.disk[l.start]],
                      lh := HeadEntries(s.disk[l.start]), phase := Reinstall(0))
    ensures Good(l, s', a)
  {
    assert Pinned(s') == [];
  }

  lemma CopyStep(l: Layout, s: State, s': State, a: Abs, t: nat, data: Block)
    requires Good(l, s, a) && Wf(l, s')
    requires s.phase == CopyToLog(t) && t < |s.lh| && data == Cached(s, s.lh[t])
    requires s' == Write(s, l.Slot(t), data).(phase := CopyToLog(t + 1))
    ensures Good(l, s', a)
  {
    assert Inv(l, s') by { CopyInv(l, s, s', data); }
    assert Refines(l, s', a) by { CopyRefines(l, s, s', a, t, data); }
  }

  lemma CommitPointStep(l: Layout, s: State, s': State, a: Abs, head: Block)
    requires Good(l, s, a) && Wf(l, s') && s.phase == CopyToLog(|s.lh|)
    requires head[0] == |s.lh| && HeadEntries(head) == s.lh
    requires s' == Write(s, l.start, head).(phase := Install(0))
    ensures Good(l, s', AbsNext(a, CommitPoint))
  {
    hide Buffers, OnDisk, Refines, Recoverable, HeadEntries, GoodEntries;
    CommitPointBuffers(l, s, s', head);
    CommitPointOnDisk(l, s, s', head);
    NoOpNoDirt(l, s);
    CurrentIsLogged(l, s, a, head);
    assert forall b: nat :: l.Home(b) ==> Cached(s', b) == Cached(s, b);
    CommitPointRefines(l, s, s', a);
  }

  lemma NoOpNoDirt(l: Layout, s: State)
    requires Wf(l, s) && Buffers(l, s) && s.ops == map[]
    ensures s.dirty == {}
  {
  }

  lemma InstallStep(l: Layout, s: State, s': State, a: Abs, t: nat, data: Block)
    requires Good(l, s, a) && Installed(l, s, s', t, data)
    ensures Good(l, s', a)
  {
    assert s.dirty == {};
    assert Buffers(l, s') by { InstallBuffers(l, s, s', t, data); }
    assert OnDisk(l, s') by { InstallOnDisk(l, s, s', t, data); }
    assert Refines(l, s', a) by { InstallRefines(l, s, s', a, t, data); }
  }

  /** A log block reads the same from the cache and from the disk. */
  lemma LogBlockClean(l: Layout, s: State, t: nat)
    requires Wf(l, s) && Buffers(l, s) && t < |s.lh|
    ensures Cached(s, l.Slot(t)) == s.disk[l.Slot(t)]
  {
  }

  lemma EraseStep(l: Layout, s: State, s': State, a: Abs)
    requires Good(l, s, a) && Next(l, s, Erase) == Some(s')
    ensures Good(l, s', AbsNext(a, Erase))
  {
    var head := EncodeHead(Cached(s, l.start), []);
    HeadRoundTrip(Cached(s, l.start), []);
    EraseInv(l, s, s', head);
    EraseRefines(l, s, s', a, head);
  }

  lemma AcquireStep(l: Layout, s: State, s': State, a: Abs, p: Proc, b: nat)
    requires Good(l, s, a) && !s.phase.Booting() && l.Home(b) && b !in s.held
    requires s' == s.(held := s.held[b := p], cache := s.cache[b := Cached(s, b)])
    ensures Good(l, s', a)
  {
    AcquireBuffers(l, s, s', p, b);
    BufferStep(l, s, s', a);
  }

  lemma ModifyStep(l: Layout, s: State, s': State, a: Abs, p: Proc, b: nat, data: Block)
    requires Good(l, s, a) && b in s.held && s.held[b] == p && p in s.ops
    requires s' == s.(cache := s.cache[b := data], dirty := s.dirty + {b})
    ensures Good(l, s', a)
  {
    ModifyBuffers(l, s, s', p, b, data);
    BufferStep(l, s, s', a);
  }

  lemma ReleaseStep(l: Layout, s: State, s': State, a: Abs, b: nat)
    requires Good(l, s, a) && b in s.held && b !in s.dirty && s' == s.(held := s.held - {b})
    ensures Good(l, s', a)
  {
    ReleaseBuffers(l, s, s', b);
    BufferStep(l, s, s', a);
  }

  lemma EvictStep(l: Layout, s: State, s': State, a: Abs, b: nat)
    requires Good(l, s, a) && b in s.cache && b !in s.held && b !in Pinned(s)
    requires s' == s.(cache := s.cache - {b})
    ensures Good(l, s', a)
  {
    EvictBuffers(l, s, s', b);
    BufferStep(l, s, s', a);
  }

  lemma LogWriteStep(l: Layout, s: State, s': State, a: Abs, p: Proc, b: nat, data: Block)
    requires Good(l, s, a) && LogWritten(l, s, s', p, b, data)
    ensures Good(l, s', AbsNext(a, LogWrite(p, b, data)))
  {
    assert s.phase.Idle?;
    assert Inv(l, s') by { LogWriteInv(l, s, s', p, b, data); }
    LogWriteRefines(l, s, s', a, p, b, data);
  }

  lemma CrashStep(l: Layout, s: State, s': State, a: Abs)
    requires Good(l, s, a) && Wf(l, s')
    requires s' == State(s.disk, map[], map[], {}, [], map[], ReadHead)
    ensures Good(l, s', AbsNext(a, Crash))
  {
    assert Inv(l, s') by { CrashInv(l, s, s', a); }
    CrashRefines(l, s, s', a);
  }

  lemma GoodIsWf(l: Layout, s: State, a: Abs)
    requires Good(l, s, a)
    ensures Wf(l, s) && Buffers(l, s) && l.start < |s.disk|
  {
  }

  lemma DiskEvent(l: Layout, s: State, s': State, a: Abs, e: Event)
    requires Good(l, s, a) && Next(l, s, e) == Some(s')
    requires e.Copy? || e.CommitPoint? || e.InstallOne? || e.Erase?
    ensures Good(l, s', AbsNext(a, e))
  {
    hide Good, Buffers, HeadEntries;
    GoodIsWf(l, s, a);
    match e
    case Copy => CopyStep(l, s, s', a, s.phase.tail, Cached(s, s.lh[s.phase.tail]));
    case CommitPoint =>
      HeadRoundTrip(Cached(s, l.start), s.lh);
      CommitPointStep(l, s, s', a, EncodeHead(Cached(s, l.start), s.lh));
    case InstallOne =>
      LogBlockClean(l, s, s.phase.tail);
      InstallStep(l, s, s', a, s.phase.tail, s.disk[l.Slot(s.phase.tail)]);
    case Erase => EraseStep(l, s, s', a);
  }

  lemma BufferEvent(l: Layout, s: State, s': State, a: Abs, e: Event)
    requires Good(l, s, a) && Next(l, s, e) == Some(s')
    requires e.Acquire? || e.Modify? || e.LogWrite? || e.Release? || e.Evict?
    ensures Good(l, s', AbsNext(a, e))
  {
    hide Good, HeadEntries;
    GoodIsWf(l, s, a);
    match e
    case Acquire(p, b) => AcquireStep(l, s, s', a, p, b);
    case Modify(p, b, data) => ModifyStep(l, s, s', a, p, b, data);
    case LogWrite(p, b, data) => LogWriteStep(l, s, s', a, p, b, data);
    case Release(p, b) => ReleaseStep(l, s, s', a, b);
    case Evict(b) => EvictStep(l, s, s', a, b);
  }

  lemma OtherEvent(l: Layout, s: State, s': State, a: Abs, e: Event)
    requires Good(l, s, a) && Next(l, s, e) == Some(s')
    requires e.Begin? || e.End? || e.Done? || e.Crash? || e.ReadHeader?
    ensures Good(l, s', AbsNext(a, e))
  {
    hide Good, HeadEntries;
    GoodIsWf(l, s, a);
    match e
    case Begin(p) => BeginStep(l, s, s', a, p);
    case End(p) => EndStep(l, s, a, p);
    case Done => DoneStep(l, s, s', a);
    case Crash => CrashStep(l, s, s', a);
    case ReadHeader => ReadHeaderStep(l, s, s', a);
  }

  /** Every step of the machine is the labelled step of the abstract disk. */
  lemma StepRefines(l: Layout, s: State, a: Abs, e: Event)
    requires Good(l, s, a) && Next(l, s, e).Some?
    ensures Good(l, Next(l, s, e).value, AbsNext(a, e))
  {
    hide Good;
    GoodIsWf(l, s, a);
    var s' := Next(l, s, e).value;
    if e.Copy? || e.CommitPoint? || e.InstallOne? || e.Erase? {
      DiskEvent(l, s, s', a, e);
    } else if e.Acquire? || e.Modify? || e.LogWrite? || e.Release? || e.Evict? {
      BufferEvent(l, s, s', a, e);
    } else {
      OtherEvent(l, s, s', a, e);
    }
  }

  /** The same over whole runs. */
  lemma {:induction false} RunRefines(l: Layout, s: State, a: Abs, es: seq<Event>)
    requires Good(l, s, a) && Exec(l, s, es).Some?
    ensures Good(l, Exec(l, s, es).value, AbsExec(a, es))
    decreases |es|
  {
    if es != [] {
      var front := es[..|es| - 1];
      RunRefines(l, s, a, front);
      StepRefines(l, Exec(l, s, front).value, AbsExec(a, front), es[|es| - 1]);
    }
  }
}
