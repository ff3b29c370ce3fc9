/**
The write-ahead log of kernel/log.c over a volatile buffer cache, as a machine whose steps
are the points at which other processes or a power failure can intervene: one step per
critical section of log.lock, one per buffer lock operation, and one per disk write.
Steps are labelled by events that carry everything a step needs, so Next is a function.
*/
module LogMachine {
  import opened Wrappers

  const MAXOPBLOCKS := 10
  const LOGSIZE := 3 * MAXOPBLOCKS
  const WORDS := 256  // BSIZE / sizeof(int)

  type Block = b: seq<nat> | |b| == WORDS witness seq(WORDS, _ => 0)
  type Proc = nat

  /** The parts of the superblock the log uses, and the size of the disk. */
  datatype Layout = Layout(start: nat, size: nat, blocks: nat) {
    ghost predicate Valid() {
      2 <= size && start + size <= blocks
    }

    /** A block outside the log area. */
    predicate Home(b: nat) {
      b < blocks && !(start <= b < start + size)
    }

    /** The log block holding entry i. */
    function Slot(i: nat): nat {
      start + 1 + i
    }

    /** log_write panics once this many blocks are in the log. */
    function Capacity(): nat
      requires Valid()
    {
      if LOGSIZE <= size - 1 then LOGSIZE else size - 1
    }
  }

  /** The header block: word 0 holds n, words 1..n the block numbers; later words are stale. */
  function EncodeHead(hb: Block, lh: seq<nat>): Block
    requires |lh| <= LOGSIZE
  {
    [|lh|] + lh + hb[1 + |lh|..]
  }

  function HeadEntries(hb: Block): seq<nat>
    requires hb[0] <= LOGSIZE
  {
    hb[1..1 + hb[0]]
  }

  predicate GoodEntries(l: Layout, lh: seq<nat>)
    requires l.Valid()
  {
    && |lh| <= l.Capacity()
    && (forall i :: 0 <= i < |lh| ==> l.Home(lh[i]))
    && (forall i, j :: 0 <= i < j < |lh| ==> lh[i] != lh[j])
  }

  predicate GoodHead(l: Layout, hb: Block)
    requires l.Valid()
  {
    hb[0] <= l.Capacity() && GoodEntries(l, HeadEntries(hb))
  }

  /** Where commit or recovery is; Idle means log.committing == 0. */
  datatype Phase =
    | Idle
    | CopyToLog(tail: nat)   // in write_log, before the header write
    | Install(tail: nat)     // in install_trans(0), after the header write
    | Finishing              // commit has returned, log.committing not yet cleared
    | ReadHead               // just booted
    | Reinstall(tail: nat)   // in install_trans(1)
  {
    predicate Booting() {
      ReadHead? || Reinstall?
    }
  }

  datatype State = State(
    disk: seq<Block>,
    cache: map<nat, Block>,  // contents of the valid buffers
    held: map<nat, Proc>,    // buffers whose sleep lock is held, and by whom
    dirty: set<nat>,         // held buffers modified since their last log_write
    lh: seq<nat>,            // log.lh.block[0..log.lh.n]
    ops: map<Proc, nat>,     // outstanding operations, with the blocks each has added to lh
    phase: Phase)

  datatype Event =
    | Begin(p: Proc)
    | End(p: Proc)
    | Acquire(p: Proc, b: nat)                 // bread
    | Modify(p: Proc, b: nat, data: Block)     // store into b->data
    | LogWrite(p: Proc, b: nat, data: Block)   // log_write, data being the buffer's contents
    | Release(p: Proc, b: nat)                 // brelse
    | Evict(b: nat)                            // bget recycles the buffer
    | Copy                                     // one block of write_log
    | CommitPoint                              // write_head in commit, with n > 0
    | InstallOne                               // one block of install_trans
    | Erase                                    // write_head with n == 0
    | Done                                     // log.committing = 0
    | Crash
    | ReadHeader                               // read_head

  ghost predicate Wf(l: Layout, s: State) {
    && l.Valid()
    && |s.disk| == l.blocks
    && GoodEntries(l, s.lh)
    && s.held.Keys <= s.cache.Keys
    && (s.phase.CopyToLog? || s.phase.Install? || s.phase.Reinstall? ==> s.phase.tail <= |s.lh|)
  }

  /** What bread returns for a block. */
  function Cached(s: State, b: nat): Block
    requires b < |s.disk|
  {
    if b in s.cache then s.cache[b] else s.disk[b]
  }

  /** Blocks with a reference taken by bpin and not yet dropped by bunpin. */
  function Pinned(s: State): seq<nat>
  {
    match s.phase
    case Install(t) => if t <= |s.lh| then s.lh[t..] else []
    case Reinstall(_) => []
    case _ => s.lh
  }

  function Write(s: State, b: nat, data: Block): State
    requires b < |s.disk|
  {
    s.(disk := s.disk[b := data], cache := s.cache[b := data])
  }

  predicate LogFull(l: Layout, s: State)
    requires l.Valid()
  {
    |s.lh| >= LOGSIZE || |s.lh| >= l.size - 1
  }

  predicate MayBegin(s: State) {
    s.phase.Idle? && |s.lh| + (|s.ops| + 1) * MAXOPBLOCKS <= LOGSIZE
  }

  /** The step an event labels, or None when that step is not possible (it waits or panics). */
  function Next(l: Layout, s: State, e: Event): (r: Option<State>)
    requires Wf(l, s)
    ensures r.Some? ==> Wf(l, r.value)
  {
    match e
    case Begin(p) =>
      if MayBegin(s) && p !in s.ops then Some(s.(ops := s.ops[p := 0])) else None
    case End(p) =>
      if s.phase.Idle? && p in s.ops && (forall b | b in s.held :: s.held[b] != p) then
        var left := s.ops - {p};
        var phase := if left != map[] then Idle else if s.lh == [] then Finishing else CopyToLog(0);
        Some(s.(ops := left, phase := phase))
      else None
    case Acquire(p, b) =>
      if !s.phase.Booting() && l.Home(b) && b !in s.held then
        Some(s.(held := s.held[b := p], cache := s.cache[b := Cached(s, b)]))
      else None
    case Modify(p, b, data) =>
      if b in s.held && s.held[b] == p && p in s.ops then
        Some(s.(cache := s.cache[b := data], dirty := s.dirty + {b}))
      else None
    case LogWrite(p, b, data) =>
      if b in s.held && s.held[b] == p && p in s.ops && s.cache[b] == data && l.Home(b) && !LogFull(l, s) then
        if b in s.lh then Some(s.(dirty := s.dirty - {b}))
        else Some(s.(dirty := s.dirty - {b}, lh := s.lh + [b], ops := s.ops[p := s.ops[p] + 1]))
      else None
    case Release(p, b) =>
      if b in s.held && s.held[b] == p && b !in s.dirty then Some(s.(held := s.held - {b})) else None
    case Evict(b) =>
      if b in s.cache && b !in s.held && b !in Pinned(s) then Some(s.(cache := s.cache - {b})) else None
    case Copy =>
      if s.phase.CopyToLog? && s.phase.tail < |s.lh| && s.lh[s.phase.tail] !in s.held then
        var t := s.phase.tail;
        Some(Write(s, l.Slot(t), Cached(s, s.lh[t])).(phase := CopyToLog(t + 1)))
      else None
    case CommitPoint =>
      if s.phase.CopyToLog? && s.phase.tail == |s.lh| && s.lh != [] then
        Some(Write(s, l.start, EncodeHead(Cached(s, l.start), s.lh)).(phase := Install(0)))
      else None
    case InstallOne =>
      if (s.phase.Install? || s.phase.Reinstall?) && s.phase.tail < |s.lh| && s.lh[s.phase.tail] !in s.held then
        var t := s.phase.tail;
        var data := Cached(s, l.Slot(t));
        var s' := Write(s.(cache := s.cache[l.Slot(t) := data]), s.lh[t], data);
        Some(s'.(phase := if s.phase.Install? then Install(t + 1) else Reinstall(t + 1)))
      else None
    case Erase =>
      if (s.phase.Install? || s.phase.Reinstall?) && s.phase.tail == |s.lh| then
        var s' := Write(s, l.start, EncodeHead(Cached(s, l.start), []));
        Some(s'.(lh := [], phase := if s.phase.Install? then Finishing else Idle))
      else None
    case Done =>
      if s.phase.Finishing? then Some(s.(phase := Idle)) else None
    case Crash =>
      Some(State(s.disk, map[], map[], {}, [], map[], ReadHead))
    case ReadHeader =>
      if s.phase.ReadHead? && GoodHead(l, Cached(s, l.start)) then
        Some(s.(cache := s.cache[l.start := Cached(s, l.start)],
                lh := HeadEntries(Cached(s, l.start)), phase := Reinstall(0)))
      else None
  }

  /** Runs a sequence of events. */
  function Exec(l: Layout, s: State, es: seq<Event>): (r: Option<State>)
    requires Wf(l, s)
    ensures r.Some? ==> Wf(l, r.value)
    decreases |es|
  {
    if es == [] then Some(s)
    else
      match Exec(l, s, es[..|es| - 1])
      case None => None
      case Some(mid) => Next(l, mid, es[|es| - 1])
  }
}
