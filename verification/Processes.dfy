/**
Processes over the copy-on-write memory: fork, growproc, freeproc, user stores and the
kernel's copies, and the theorem that any run of them is a run of a machine whose fork
copies every page at once.
*/
module CowRefinesEager {
  import opened Wrappers
  import opened PageRefs
  import opened CowMemory

  const INT_MAX := 0x7FFF_FFFF
  const UINT64 := 0x1_0000_0000_0000_0000

  datatype Cmd =
    | Spawn(p: Pid)                             // a process with no user memory
    | Fork(p: Pid, c: Pid)
    | Store(p: Pid, va: nat, b: Byte)
    | CopyOut(p: Pid, dst: nat, src: seq<Byte>)
    | Grow(p: Pid, n: int)                      // growproc
    | Load(p: Pid, n: int, w: bool, x: bool)    // exec's uvmalloc for n bytes of a segment
    | Exit(p: Pid)                              // freeproc

  /** The eager machine: each process owns its pages outright. */
  datatype Eager = Eager(mem: map<Key, Page>, sz: map<Pid, nat>)

  /** What sz + n comes to in uint64 arithmetic. */
  function NewSize(sz: nat, n: int): int {
    if sz + n < 0 then sz + n + UINT64 else sz + n
  }

  /** Processes act only while they exist, and new ones get unused slots; growproc takes an int. */
  predicate Legal(sz: map<Pid, nat>, cmd: Cmd) {
    match cmd
    case Spawn(p) => p !in sz
    case Fork(p, c) => p in sz && c !in sz
    case Store(p, _, _) => p in sz
    case CopyOut(p, _, _) => p in sz
    case Grow(p, n) => p in sz && -INT_MAX - 1 <= n <= INT_MAX
    case Load(p, n, _, _) => p in sz && n >= 0
    case Exit(p) => p in sz
  }

  /** The pages a command adds above process p's, in bytes; 0 if it adds none. */
  function Growing(cmd: Cmd): nat {
    if (cmd.Load? || cmd.Grow?) && cmd.n > 0 then cmd.n else 0
  }

  /** n bytes more for process p, in pages of zeros. */
  ghost predicate EagerGrown(s: Eager, p: Pid, n: nat, ok: bool, s': Eager)
    requires p in s.sz
  {
    if ok then Grown(s.mem, s'.mem, p, PageCount(s.sz[p]), PageCount(s.sz[p] + n)) && s'.sz == s.sz[p := s.sz[p] + n]
    else s' == s
  }

  /** One step of the eager machine; when ok is false is for Step to say. */
  ghost predicate EagerStep(s: Eager, cmd: Cmd, ok: bool, done: nat, s': Eager) {
    if !Legal(s.sz, cmd) then s' == s
    else
      match cmd
      case Spawn(p) =>
        s' == if ok then s.(sz := s.sz[p := 0]) else s
      case Fork(p, c) =>
        if ok then Forked(s.mem, s'.mem, p, c, PageCount(s.sz[p])) && s'.sz == s.sz[c := s.sz[p]] else s' == s
      case Store(p, va, b) =>
        if ok then Wrote(s.mem, s'.mem, p, va, [b]) && s'.sz == s.sz else s' == s
      case CopyOut(p, dst, src) =>
        done <= |src| && (ok ==> done == |src|) && Wrote(s.mem, s'.mem, p, dst, src[..done]) && s'.sz == s.sz
      case Load(p, n, _, _) => EagerGrown(s, p, n, ok, s')
      case Grow(p, n) =>
        if n > 0 then EagerGrown(s, p, n, ok, s')
        else if s.sz[p] + n < 0 then s' == s
        else
          && s'.mem == s.mem - Pages(p, PageCount(s.sz[p] + n), PageCount(s.sz[p]))
          && s'.sz == s.sz[p := s.sz[p] + n]
      case Exit(p) =>
        s'.mem == s.mem - Pages(p, 0, PageCount(s.sz[p])) && s'.sz == s.sz - {p}
  }

  /** Memory a process is given reads 0, whoever used its frame before: every byte from the first new page on. */
  lemma GrownIsZero(s: Eager, cmd: Cmd, done: nat, s': Eager, a: nat)
    requires EagerStep(s, cmd, true, done, s') && Legal(s.sz, cmd) && Growing(cmd) > 0
    requires PageCount(s.sz[cmd.p]) * PGSIZE <= a && cmd.p in s'.sz && a < s'.sz[cmd.p]
    ensures Key(cmd.p, a / PGSIZE) in s'.mem && s'.mem[Key(cmd.p, a / PGSIZE)][a % PGSIZE] == 0
  {
    hide PageCount;
    var lo, hi := PageCount(s.sz[cmd.p]), PageCount(s.sz[cmd.p] + cmd.n);
    assert lo <= a / PGSIZE < hi;
    assert Grown(s.mem, s'.mem, cmd.p, lo, hi);
  }

  ghost predicate EagerRun(run: seq<Eager>, cmds: seq<Cmd>, oks: seq<bool>, dones: seq<nat>) {
    && |run| == |cmds| + 1 && |oks| == |dones| == |cmds|
    && forall i :: 0 <= i < |cmds| ==> EagerStep(run[i], cmds[i], oks[i], dones[i], run[i + 1])
  }

  lemma RunExtends(run: seq<Eager>, cmds: seq<Cmd>, oks: seq<bool>, dones: seq<nat>, cmd: Cmd, ok: bool, done: nat,
                   s': Eager)
    requires EagerRun(run, cmds, oks, dones)
    requires EagerStep(run[|run| - 1], cmd, ok, done, s')
    ensures EagerRun(run + [s'], cmds + [cmd], oks + [ok], dones + [done])
  {
    var run' := run + [s'];
    forall i | 0 <= i < |cmds| + 1
      ensures EagerStep(run'[i], (cmds + [cmd])[i], (oks + [ok])[i], (dones + [done])[i], run'[i + 1])
    {
      if i < |cmds| {
        assert EagerStep(run[i], cmds[i], oks[i], dones[i], run[i + 1]);
      }
    }
  }

  /** Isolation on the eager machine: pages of a process that does nothing keep their contents. */
  lemma {:induction false} UntouchedPages(run: seq<Eager>, cmds: seq<Cmd>, oks: seq<bool>, dones: seq<nat>, k: Key)
    requires EagerRun(run, cmds, oks, dones) && k in run[0].mem && k.pid in run[0].sz
    requires forall i :: 0 <= i < |cmds| ==> cmds[i].p != k.pid
    ensures k in run[|cmds|].mem && k.pid in run[|cmds|].sz
    ensures run[|cmds|].mem[k] == run[0].mem[k]
    decreases |cmds|
  {
    if |cmds| > 0 {
      var n := |cmds| - 1;
      var front := run[..|run| - 1];
      assert EagerRun(front, cmds[..n], oks[..n], dones[..n]) by {
        forall i | 0 <= i < n
          ensures EagerStep(front[i], cmds[..n][i], oks[..n][i], dones[..n][i], front[i + 1])
        {
          assert EagerStep(run[i], cmds[i], oks[i], dones[i], run[i + 1]);
        }
      }
      UntouchedPages(front, cmds[..n], oks[..n], dones[..n], k);
      UntouchedPage(run[n], cmds[n], oks[n], dones[n], run[n + 1], k);
    }
  }

  lemma UntouchedPage(s: Eager, cmd: Cmd, ok: bool, done: nat, s': Eager, k: Key)
    requires EagerStep(s, cmd, ok, done, s') && k in s.mem && k.pid in s.sz && cmd.p != k.pid
    ensures k in s'.mem && k.pid in s'.sz && s'.mem[k] == s.mem[k]
  {
    if cmd.Store? || cmd.CopyOut? {
      if Legal(s.sz, cmd) && (cmd.CopyOut? || ok) {
        assert forall i :: 0 <= i < PGSIZE ==> s'.mem[k][i] == s.mem[k][i];
      }
    }
  }

  // ---- what a run does, exactly ----

  /** What decides whether a command succeeds: the entries, which tables there are, and how many frames are free. */
  datatype World = World(eager: Eager, ptes: Ptes, tables: set<Table>, free: nat, loose: seq<nat>)

  /** Every frame is free, and there are no processes. */
  function Booted(frames: nat): World {
    World(Eager(map[], map[]), map[], {}, frames, seq(frames, _ => 0))
  }

  /** The frames fork takes for n pages: a trapframe, the top of the page table, and what else is above them. */
  ghost function ForkFrames(c: Pid, n: nat): nat {
    4 + Missing(c, 0, n, Top(c))
  }

  /** A fork that has memory for a new process, but not for all of its page tables. */
  ghost predicate Leaks(s: World, cmd: Cmd) {
    cmd.Fork? && Legal(s.eager.sz, cmd) && 4 <= s.free < ForkFrames(cmd.c, PageCount(s.eager.sz[cmd.p]))
  }

  /** uvmalloc up to the trapframe page, with memory to spare: mappages panics. */
  ghost predicate Panics(s: World, cmd: Cmd) {
    && Legal(s.eager.sz, cmd) && Growing(cmd) > 0
    && var lo := PageCount(s.eager.sz[cmd.p]);
       && PageCount(s.eager.sz[cmd.p] + Growing(cmd)) > TRAPFRAME_VPN
       && s.free > GrowthFrames(cmd.p, lo, TRAPFRAME_VPN, s.tables)
  }

  /** Exactly when a command succeeds; copyout, which may stop midway, is for CopyStep to say. */
  ghost predicate Succeeds(s: World, cmd: Cmd)
    requires Legal(s.eager.sz, cmd)
  {
    match cmd
    case Spawn(p) => s.free >= 4
    case Fork(p, c) => s.free >= ForkFrames(c, PageCount(s.eager.sz[p]))
    case Store(p, va, _) => StoreAllowed(s.ptes, Key(p, va / PGSIZE), s.free)
    case CopyOut(_, _, _) => true
    case Grow(_, _) => RoomFor(s, cmd.p, Growing(cmd))
    case Load(_, _, _, _) => RoomFor(s, cmd.p, Growing(cmd))
    case Exit(_) => true
  }

  ghost predicate RoomFor(s: World, p: Pid, n: nat)
    requires p in s.eager.sz
  {
    n == 0 || s.free >= GrowthFrames(p, PageCount(s.eager.sz[p]), PageCount(s.eager.sz[p] + n), s.tables)
  }

  /** Why copyout stops at address a: it is not the user's, or its page cannot be made private. */
  predicate StopsAt(s: World, p: Pid, a: nat) {
    var k := Key(p, a / PGSIZE);
    k.vpn >= MAXVPN || k !in s.ptes || !s.ptes[k].u || (s.ptes[k].cow && s.free == 0)
  }

  /** Fork p into c has lost its reference to the frame of the first page whose tables did not fit. */
  ghost predicate LostAt(s: World, p: Pid, c: Pid, n: nat, loose: seq<nat>) {
    exists v: nat :: v < n && LostPage(s, p, c, v, loose)
  }

  ghost predicate LostPage(s: World, p: Pid, c: Pid, v: nat, loose: seq<nat>) {
    && Key(p, v) in s.ptes && s.free >= 4 && LastMapped(c, v, Top(c), s.free - 4)
    && LostOne(s.loose, loose, s.ptes[Key(p, v)].frame)
  }

  /**
  One command, when it does not panic: memory, what is lost, whether it succeeds, what becomes of the entries and the
  tables, and what is free then.
  */
  ghost predicate Step(s: World, cmd: Cmd, ok: bool, done: nat, s': World) {
    EagerStep(s.eager, cmd, ok, done, s'.eager) && LossStep(s, cmd, s'.loose) && OkStep(s, cmd, ok, done, s') &&
        EntryStep(s, cmd, ok, done, s') && Balance(s') == Balance(s)
  }

  /** Frames are free, hold a table, or are named by an entry or a lost reference. */
  ghost function Balance(s: World): nat {
    s.free + |s.tables| + |Named(s.ptes, s.loose)|
  }

  ghost predicate LossStep(s: World, cmd: Cmd, loose: seq<nat>) {
    if Leaks(s, cmd) then LostAt(s, cmd.p, cmd.c, PageCount(s.eager.sz[cmd.p]), loose) else loose == s.loose
  }

  ghost predicate OkStep(s: World, cmd: Cmd, ok: bool, done: nat, s': World) {
    Legal(s.eager.sz, cmd) ==> if cmd.CopyOut? then CopyStep(s', cmd, ok, done) else ok <==> Succeeds(s, cmd)
  }

  predicate CopyStep(s': World, cmd: Cmd, ok: bool, done: nat)
    requires cmd.CopyOut?
  {
    (ok <==> done == |cmd.src|) && (ok || StopsAt(s', cmd.p, cmd.dst + done))
  }

  /** The entries and the tables after a command, and the free frames where Balance does not say it all. */
  ghost predicate EntryStep(s: World, cmd: Cmd, ok: bool, done: nat, s': World) {
    if !Legal(s.eager.sz, cmd) then Unchanged(s, s')
    else
      match cmd
      case Spawn(p) =>
        if ok then
          s'.ptes == s.ptes && s'.tables == s.tables + {Trapframe(p)} + Top(p) && s'.free == s.free - 4
        else Unchanged(s, s')
      case Fork(p, c) => if ok then ForkedEntries(s, p, c, s') else UnforkedEntries(s, p, c, s')
      case Store(p, va, _) =>
        if ok then Stored(s, s', Key(p, va / PGSIZE)) && s'.tables == s.tables else Unchanged(s, s')
      case CopyOut(p, dst, _) => MadePrivate(s.ptes, s'.ptes, p, dst, dst + done) && s'.tables == s.tables
      case Load(_, _, _, _) => GrownEntries(s, cmd, ok, s')
      case Grow(p, n) => if n > 0 then GrownEntries(s, cmd, ok, s') else ShrunkEntries(s, p, n, s')
      case Exit(p) =>
        s'.ptes == s.ptes - Pages(p, 0, PageCount(s.eager.sz[p])) && s'.tables == OthersTables(s.tables, p)
  }

  ghost predicate Unchanged(s: World, s': World) {
    s'.ptes == s.ptes && s'.tables == s.tables && s'.free == s.free
  }

  function OthersTables(tables: set<Table>, p: Pid): set<Table> {
    set t | t in tables && t.pid != p
  }

  ghost predicate ForkedEntries(s: World, p: Pid, c: Pid, s': World)
    requires p in s.eager.sz
  {
    var n := PageCount(s.eager.sz[p]);
    && Shared(s.ptes, s'.ptes, p, c, n) && s'.free == s.free - ForkFrames(c, n)
    && s'.tables == s.tables + {Trapframe(c)} + Top(c) + Wanted(c, 0, n)
  }

  /** fork comes to page v before memory runs out, if it does. */
  ghost predicate Reached(s: World, c: Pid, v: nat) {
    s.free >= 4 && Missing(c, 0, v, Top(c)) <= s.free - 4
  }

  /** A fork that fails gives back what it has allocated, but leaves the pages it came to copy-on-write. */
  ghost predicate UnforkedEntries(s: World, p: Pid, c: Pid, s': World) {
    && s'.tables == s.tables && s'.free == s.free && s'.ptes.Keys == s.ptes.Keys
    && forall k :: k in s.ptes ==>
         s'.ptes[k] == if k.pid == p && Reached(s, c, k.vpn) then s.ptes[k].(w := false, cow := true) else s.ptes[k]
  }

  /** uvmalloc, or its undoing, which leaves the tables it has made. */
  ghost predicate GrownEntries(s: World, cmd: Cmd, ok: bool, s': World)
    requires Legal(s.eager.sz, cmd) && (cmd.Load? || cmd.Grow?)
  {
    if Growing(cmd) == 0 then Unchanged(s, s')
    else if ok then Widened(s, cmd, s')
    else
      var lo, hi := PageCount(s.eager.sz[cmd.p]), PageCount(s.eager.sz[cmd.p] + Growing(cmd));
      && s'.ptes == s.ptes && s'.free + |s'.tables| == s.free + |s.tables|
      && StoppedAt(cmd.p, lo, hi, s.tables, s.free, s'.tables)
  }

  ghost predicate ShrunkEntries(s: World, p: Pid, n: int, s': World)
    requires p in s.eager.sz && n <= 0
  {
    && s'.tables == s.tables
    && s'.ptes == if s.eager.sz[p] + n < 0 then s.ptes
                  else s.ptes - Pages(p, PageCount(s.eager.sz[p] + n), PageCount(s.eager.sz[p]))
  }

  /** The new pages' permissions: always readable and the user's, writable and executable as asked for. */
  ghost predicate Widened(s: World, cmd: Cmd, s': World)
    requires Legal(s.eager.sz, cmd) && Growing(cmd) > 0
  {
    var lo, hi := PageCount(s.eager.sz[cmd.p]), PageCount(s.eager.sz[cmd.p] + Growing(cmd));
    && Added(s.ptes, s'.ptes, cmd.p, lo, hi)
    && ZeroEntries(s'.ptes, cmd.p, lo, hi, cmd.Grow? || cmd.w, cmd.Load? && cmd.x)
    && s'.free == s.free - GrowthFrames(cmd.p, lo, hi, s.tables) && s'.tables == s.tables + Wanted(cmd.p, lo, hi)
  }

  /** The entries after a store to page k: unless it was writable, a fault has moved it to a frame nobody named. */
  ghost predicate Stored(s: World, s': World, k: Key) {
    && k in s.ptes
    && if s.ptes[k].w then s'.ptes == s.ptes && s'.free == s.free
       else
         k in s'.ptes && s'.ptes == AfterFault(s.ptes, k, s'.ptes[k].frame) && s'.ptes[k].frame < |s.loose| &&
             s'.ptes[k].frame !in Named(s.ptes, s.loose)
  }

  lemma ForkedStep(s: World, p: Pid, c: Pid, s': World)
    requires Legal(s.eager.sz, Fork(p, c)) && s.free >= ForkFrames(c, PageCount(s.eager.sz[p]))
    requires Forked(s.eager.mem, s'.eager.mem, p, c, PageCount(s.eager.sz[p]))
    requires s'.eager.sz == s.eager.sz[c := s.eager.sz[p]] && s'.loose == s.loose
    requires ForkedEntries(s, p, c, s') && Balance(s') == Balance(s)
    ensures Step(s, Fork(p, c), true, 0, s')
  {
    hide Forked, ForkedEntries, Missing, Top, Balance;
  }

  lemma FailedForkStep(s: World, p: Pid, c: Pid, s': World)
    requires Legal(s.eager.sz, Fork(p, c)) && 4 <= s.free < ForkFrames(c, PageCount(s.eager.sz[p]))
    requires s'.eager == s.eager && UnforkedEntries(s, p, c, s') && Balance(s') == Balance(s)
    requires LostAt(s, p, c, PageCount(s.eager.sz[p]), s'.loose)
    ensures Step(s, Fork(p, c), false, 0, s')
  {
    hide Forked, UnforkedEntries, Missing, Top, LostAt, Balance;
  }

  /** Nothing but the number of free frames could have changed, and it has not. */
  lemma SameFree(s: World, s': World)
    requires s'.ptes == s.ptes && s'.tables == s.tables && s'.loose == s.loose && Balance(s') == Balance(s)
    ensures Unchanged(s, s')
  {
    hide Named;
  }

  lemma SpawnStep(s: World, p: Pid, ok: bool, s': World)
    requires p !in s.eager.sz && s'.ptes == s.ptes && s'.loose == s.loose && Balance(s') == Balance(s)
    requires (ok <==> s.free >= 4) && s'.eager == if ok then s.eager.(sz := s.eager.sz[p := 0]) else s.eager
    requires if ok then s'.tables == s.tables + {Trapframe(p)} + Top(p) && s'.free == s.free - 4
             else s'.tables == s.tables
    ensures Step(s, Spawn(p), ok, 0, s')
  {
    hide Top, Named;
  }

  lemma CutStep(s: World, p: Pid, n: int, s': World)
    requires Legal(s.eager.sz, Grow(p, n)) && n <= 0 && s'.loose == s.loose && Balance(s') == Balance(s)
    requires ShrunkEntries(s, p, n, s')
    requires if s.eager.sz[p] + n < 0 then s'.eager == s.eager
             else && s'.eager.mem == s.eager.mem - Pages(p, PageCount(s.eager.sz[p] + n), PageCount(s.eager.sz[p]))
                  && s'.eager.sz == s.eager.sz[p := s.eager.sz[p] + n]
    ensures Step(s, Grow(p, n), true, 0, s') && !Panics(s, Grow(p, n))
  {
    hide ShrunkEntries, Pages, Balance, GrowthFrames;
  }

  lemma NoForkStep(s: World, p: Pid, c: Pid, s': World)
    requires Legal(s.eager.sz, Fork(p, c)) && s.free < 4 && s'.eager == s.eager && Unchanged(s, s')
    requires s'.loose == s.loose
    ensures Step(s, Fork(p, c), false, 0, s')
  {
    hide Missing, Top;
    assert forall k :: k in s.ptes ==> !Reached(s, c, k.vpn);
  }

  lemma WidenedStep(s: World, cmd: Cmd, s': World)
    requires Legal(s.eager.sz, cmd) && (cmd.Grow? || cmd.Load?) && (cmd.Grow? ==> cmd.n > 0)
    requires RoomFor(s, cmd.p, Growing(cmd)) && Balance(s') == Balance(s)
    requires EagerGrown(s.eager, cmd.p, cmd.n, true, s'.eager) && s'.loose == s.loose
    requires if cmd.n > 0 then Widened(s, cmd, s') else Unchanged(s, s')
    ensures Step(s, cmd, true, 0, s')
  {
    hide EagerGrown, Widened, RoomFor, Balance, Unchanged;
  }

  lemma NotWidenedStep(s: World, cmd: Cmd, s': World)
    requires Legal(s.eager.sz, cmd) && (cmd.Grow? || cmd.Load?) && cmd.n > 0 && !RoomFor(s, cmd.p, Growing(cmd))
    requires s'.eager == s.eager && s'.loose == s.loose && s'.ptes == s.ptes && Balance(s') == Balance(s)
    requires var sz := s.eager.sz[cmd.p];
             StoppedAt(cmd.p, PageCount(sz), PageCount(sz + Growing(cmd)), s.tables, s.free, s'.tables)
    ensures Step(s, cmd, false, 0, s')
  {
    hide Widened, RoomFor, StoppedAt, Named;
  }

  /** What decides how uvmalloc of n bytes ends. */
  ghost predicate Outcome(s: World, p: Pid, n: nat, r: Growth)
    requires p in s.eager.sz
  {
    var lo, hi := PageCount(s.eager.sz[p]), PageCount(s.eager.sz[p] + n);
    && (r.Grew? <==> hi <= TRAPFRAME_VPN && s.free >= GrowthFrames(p, lo, hi, s.tables))
    && (r.Panic? <==> hi > TRAPFRAME_VPN && s.free > GrowthFrames(p, lo, TRAPFRAME_VPN, s.tables))
  }

  /** And what it has done then. */
  ghost predicate Enlarged(s: World, p: Pid, n: nat, xw: bool, xx: bool, ok: bool, s': World)
    requires p in s.eager.sz
  {
    var lo, hi := PageCount(s.eager.sz[p]), PageCount(s.eager.sz[p] + n);
    && s'.loose == s.loose && EagerGrown(s.eager, p, n, ok, s'.eager)
    && if ok then
         && s'.free == s.free - GrowthFrames(p, lo, hi, s.tables) && s'.tables == s.tables + Wanted(p, lo, hi)
         && Added(s.ptes, s'.ptes, p, lo, hi) && ZeroEntries(s'.ptes, p, lo, hi, xw, xx)
         && (lo == hi ==> s'.ptes == s.ptes)
       else s'.ptes == s.ptes && StoppedAt(p, lo, hi, s.tables, s.free, s'.tables)
  }

  lemma OutcomeIs(s: World, cmd: Cmd, r: Growth)
    requires Legal(s.eager.sz, cmd) && (cmd.Grow? || cmd.Load?) && (cmd.Grow? ==> cmd.n > 0)
    requires PageCount(s.eager.sz[cmd.p]) <= TRAPFRAME_VPN && Outcome(s, cmd.p, cmd.n, r)
    ensures r.Panic? <==> Panics(s, cmd)
    ensures !r.Panic? ==> (r.Grew? <==> RoomFor(s, cmd.p, Growing(cmd)))
  {
    hide GrowthFrames;
    MoreToGrow(cmd.p, PageCount(s.eager.sz[cmd.p]), PageCount(s.eager.sz[cmd.p] + cmd.n), s.tables);
    NoGrowth(cmd.p, PageCount(s.eager.sz[cmd.p]), s.tables);
  }

  lemma GrewStep(s: World, cmd: Cmd, s': World)
    requires Legal(s.eager.sz, cmd) && (cmd.Grow? || cmd.Load?) && (cmd.Grow? ==> cmd.n > 0)
    requires RoomFor(s, cmd.p, Growing(cmd)) && Balance(s') == Balance(s)
    requires Enlarged(s, cmd.p, cmd.n, cmd.Grow? || cmd.w, cmd.Load? && cmd.x, true, s')
    ensures Step(s, cmd, true, 0, s')
  {
    hide GrowthFrames, Balance, EagerGrown, ZeroEntries, Added, Wanted, RoomFor, Step;
    NoneWanted(cmd.p, PageCount(s.eager.sz[cmd.p]), s.tables);
    if cmd.n == 0 { SameFree(s, s'); }
    WidenedStep(s, cmd, s');
  }

  lemma NotGrownStep(s: World, cmd: Cmd, s': World)
    requires Legal(s.eager.sz, cmd) && (cmd.Grow? || cmd.Load?) && (cmd.Grow? ==> cmd.n > 0)
    requires !RoomFor(s, cmd.p, Growing(cmd)) && Balance(s') == Balance(s)
    requires Enlarged(s, cmd.p, cmd.n, cmd.Grow? || cmd.w, cmd.Load? && cmd.x, false, s')
    ensures Step(s, cmd, false, 0, s')
  {
    hide GrowthFrames, Balance, StoppedAt, Step;
    NotWidenedStep(s, cmd, s');
  }

  // ---- what is given back ----

  /** The frames that are named by entries in keys only. */
  ghost function OnlyIn(ptes: Ptes, loose: seq<nat>, keys: set<Key>): set<Frame> {
    set f | f in Named(ptes, loose) && loose[f] == 0 && forall k :: k in ptes && ptes[k].frame == f ==> k in keys
  }

  lemma NamedLess(ptes: Ptes, loose: seq<nat>, keys: set<Key>)
    ensures |Named(ptes, loose)| == |Named(ptes - keys, loose)| + |OnlyIn(ptes, loose, keys)|
  {
    var was, now, gone := Named(ptes, loose), Named(ptes - keys, loose), OnlyIn(ptes, loose, keys);
    forall k | k in ptes && k !in keys ensures Mapped(ptes - keys, ptes[k].frame) {
      assert k in ptes - keys && (ptes - keys)[k].frame == ptes[k].frame;
    }
    forall f: Frame
      ensures f in was <==> f in now || f in gone
      ensures !(f in now && f in gone)
    {
      if f in was && loose[f] == 0 {
        if Mapped(ptes - keys, f) {
          var k :| k in ptes - keys && (ptes - keys)[k].frame == f;
          assert k in ptes && ptes[k].frame == f;
        } else {
          forall k | k in ptes && ptes[k].frame == f ensures k in keys { }
        }
      }
      if f in now && loose[f] == 0 {
        var k :| k in ptes - keys && (ptes - keys)[k].frame == f;
        assert k in ptes && ptes[k].frame == f && k !in keys;
        assert Mapped(ptes, f);
      }
    }
    hide Named, OnlyIn;
    assert was == now + gone && now * gone == {};
  }

  /** What exit gives back: its tables and trapframe, and the frames that only it mapped. */
  lemma ExitFrees(s: World, p: Pid, ok: bool, done: nat, s': World)
    requires p in s.eager.sz && Step(s, Exit(p), ok, done, s')
    ensures s'.free == s.free + |set t | t in s.tables && t.pid == p| +
                       |OnlyIn(s.ptes, s.loose, Pages(p, 0, PageCount(s.eager.sz[p])))|
  {
    hide EagerStep, OkStep, Named, OnlyIn, Pages;
    NamedLess(s.ptes, s.loose, Pages(p, 0, PageCount(s.eager.sz[p])));
    var mine, others := (set t | t in s.tables && t.pid == p), OthersTables(s.tables, p);
    assert s.tables == mine + others && mine * others == {};
  }

  /** What a shrinking growproc gives back: the frames that only the pages cut off mapped. */
  lemma ShrinkFrees(s: World, p: Pid, n: int, ok: bool, done: nat, s': World)
    requires p in s.eager.sz && -INT_MAX - 1 <= n <= 0 && s.eager.sz[p] + n >= 0
    requires Step(s, Grow(p, n), ok, done, s')
    ensures s'.free == s.free +
                       |OnlyIn(s.ptes, s.loose, Pages(p, PageCount(s.eager.sz[p] + n), PageCount(s.eager.sz[p])))|
  {
    hide EagerStep, OkStep, Named, OnlyIn, Pages;
    NamedLess(s.ptes, s.loose, Pages(p, PageCount(s.eager.sz[p] + n), PageCount(s.eager.sz[p])));
  }

  /** What a store takes: a frame, if the page was copy-on-write and its frame is named elsewhere too. */
  lemma StoreTakes(s: World, p: Pid, va: nat, b: Byte, done: nat, s': World)
    requires p in s.eager.sz && Step(s, Cmd.Store(p, va, b), true, done, s')
    requires forall k :: k in s.ptes ==> s.ptes[k].frame < |s.loose|
    ensures Key(p, va / PGSIZE) in s.ptes
    ensures var k := Key(p, va / PGSIZE);
            s.free == s'.free + if s.ptes[k].w || s.ptes[k].frame in OnlyIn(s.ptes, s.loose, {k}) then 0 else 1
  {
    hide EagerStep, OkStep;
    var k := Key(p, va / PGSIZE);
    if !s.ptes[k].w {
      NamedMoved(s.ptes, s.loose, k, s'.ptes[k]);
    }
  }

  lemma NamedMoved(ptes: Ptes, loose: seq<nat>, k: Key, pte: Pte)
    requires k in ptes && ptes[k].frame < |loose| && pte.frame < |loose| && pte.frame !in Named(ptes, loose)
    ensures |Named(ptes[k := pte], loose)| ==
            |Named(ptes, loose)| + if ptes[k].frame in OnlyIn(ptes, loose, {k}) then 0 else 1
  {
    var rest := ptes - {k};
    var f := ptes[k].frame;
    NamedLess(ptes, loose, {k});
    assert OnlyIn(ptes, loose, {k}) <= {f} by {
      forall g | g in OnlyIn(ptes, loose, {k}) ensures g == f {
        assert Mapped(ptes, g);
        var j :| j in ptes && ptes[j].frame == g;
      }
    }
    NamedWith(rest, loose, k, pte);
    assert ptes[k := pte] == rest[k := pte];
    MappedRest(ptes, {k});
    if f in OnlyIn(ptes, loose, {k}) { assert OnlyIn(ptes, loose, {k}) == {f}; }
    else { assert OnlyIn(ptes, loose, {k}) == {}; }
  }

  lemma MappedRest(ptes: Ptes, keys: set<Key>)
    ensures forall f: Frame :: Mapped(ptes - keys, f) ==> Mapped(ptes, f)
  {
    forall f: Frame | Mapped(ptes - keys, f) ensures Mapped(ptes, f) {
      var k :| k in ptes - keys && (ptes - keys)[k].frame == f;
      assert k in ptes && ptes[k].frame == f;
    }
  }

  lemma NamedWith(ptes: Ptes, loose: seq<nat>, k: Key, pte: Pte)
    requires k !in ptes && pte.frame < |loose|
    ensures Named(ptes[k := pte], loose) == Named(ptes, loose) + {pte.frame}
  {
    forall f: Frame ensures Mapped(ptes[k := pte], f) <==> Mapped(ptes, f) || f == pte.frame {
      if Mapped(ptes, f) {
        var j :| j in ptes && ptes[j].frame == f;
        assert j in ptes[k := pte] && ptes[k := pte][j].frame == f;
      }
      if f == pte.frame { assert ptes[k := pte][k].frame == f; }
      if Mapped(ptes[k := pte], f) && f != pte.frame {
        var j :| j in ptes[k := pte] && ptes[k := pte][j].frame == f;
        assert j in ptes;
      }
    }
  }

  ghost predicate Runs(run: seq<World>, cmds: seq<Cmd>, oks: seq<bool>, dones: seq<nat>) {
    && |run| == |cmds| + 1 && |oks| == |dones| == |cmds|
    && forall i :: 0 <= i < |cmds| ==> !Panics(run[i], cmds[i]) && Step(run[i], cmds[i], oks[i], dones[i], run[i + 1])
  }

  lemma RunsExtend(run: seq<World>, cmds: seq<Cmd>, oks: seq<bool>, dones: seq<nat>, cmd: Cmd, ok: bool, done: nat,
                   s': World)
    requires Runs(run, cmds, oks, dones) && !Panics(run[|run| - 1], cmd) && Step(run[|run| - 1], cmd, ok, done, s')
    ensures Runs(run + [s'], cmds + [cmd], oks + [ok], dones + [done])
  {
    hide Step, Panics;
    var run' := run + [s'];
    forall i | 0 <= i < |cmds| + 1
      ensures !Panics(run'[i], (cmds + [cmd])[i])
      ensures Step(run'[i], (cmds + [cmd])[i], (oks + [ok])[i], (dones + [done])[i], run'[i + 1])
    {
      if i < |cmds| {
        assert !Panics(run[i], cmds[i]) && Step(run[i], cmds[i], oks[i], dones[i], run[i + 1]);
      }
    }
  }

  function Eagers(run: seq<World>): (r: seq<Eager>)
    ensures |r| == |run| && forall i :: 0 <= i < |run| ==> r[i] == run[i].eager
  {
    seq(|run|, i requires 0 <= i < |run| => run[i].eager)
  }

  /** The copy-on-write kernel's runs are runs of the machine whose fork copies every page. */
  lemma RunsAreEager(run: seq<World>, cmds: seq<Cmd>, oks: seq<bool>, dones: seq<nat>)
    requires Runs(run, cmds, oks, dones)
    ensures EagerRun(Eagers(run), cmds, oks, dones)
  {
    hide EagerStep, Panics, LossStep, OkStep, EntryStep;
    var r := Eagers(run);
    forall i | 0 <= i < |cmds| ensures EagerStep(r[i], cmds[i], oks[i], dones[i], r[i + 1]) {
      assert Step(run[i], cmds[i], oks[i], dones[i], run[i + 1]);
    }
  }

  // ---- the number of tables, in figures ----

  function Ceil(n: nat, d: nat): nat
    requires d > 0
  {
    (n + d - 1) / d
  }

  lemma {:induction false} WantedHas(c: Pid, n: nat)
    ensures forall i: nat :: Table(c, 0, i) in Wanted(c, 0, n) <==> i * 512 < n
    ensures forall i: nat :: Table(c, 1, i) in Wanted(c, 0, n) <==> i * 512 * 512 < n
  {
    if n > 0 {
      WantedHas(c, n - 1);
      forall i: nat ensures Table(c, 0, i) in Wanted(c, 0, n) <==> i * 512 < n {
        if i * 512 == n - 1 { assert (n - 1) / 512 == i; }
        if (n - 1) / 512 == i { assert i * 512 <= n - 1; }
      }
      forall i: nat ensures Table(c, 1, i) in Wanted(c, 0, n) <==> i * 512 * 512 < n {
        if i * 512 * 512 == n - 1 { assert (n - 1) / 512 / 512 == i; }
        if (n - 1) / 512 / 512 == i { assert i * 512 * 512 <= n - 1; }
      }
    }
  }

  /**
  One table for every 512 pages, and one for every 512 of those; the last ones of either kind are there already, above
  the trapframe.
  */
  lemma {:induction false} ForkFramesIs(c: Pid, n: nat)
    requires n <= TRAPFRAME_VPN
    ensures ForkFrames(c, n) ==
            4 + Least(Ceil(n, 512), 131071) + Least(Ceil(n, 512 * 512), 255)
  {
    hide Missing, Wanted, Top, Ceil;
    if n == 0 {
      NoneWanted(c, 0, Top(c));
      CeilZero();
    } else {
      ForkFramesIs(c, n - 1);
      MissingNext(c, 0, n - 1, Top(c));
      OneMorePage(c, n - 1);
      NewTables(n - 1);
    }
  }

  function Least(a: nat, b: nat): nat {
    if a < b then a else b
  }

  lemma CeilZero()
    ensures Ceil(0, 512) == Ceil(0, 512 * 512) == 0
  {
  }

  lemma OneMorePage(c: Pid, v: nat)
    requires v < TRAPFRAME_VPN
    ensures |Above(c, v) - (Top(c) + Wanted(c, 0, v))| ==
            (if v % (512 * 512) == 0 && v / 512 / 512 < 255 then 1 else 0) +
            if v % 512 == 0 && v / 512 < 131071 then 1 else 0
  {
    hide Wanted;
    WantedHas(c, v);
    MissingOne(c, v, Top(c) + Wanted(c, 0, v));
    NewTables(v);
  }

  lemma NewTables(v: nat)
    requires v < TRAPFRAME_VPN
    ensures v / 512 <= 131071 && v / 512 / 512 <= 255
    ensures v / 512 * 512 < v <==> v % 512 != 0
    ensures v / 512 / 512 * 512 * 512 < v <==> v % (512 * 512) != 0
    ensures Ceil(v + 1, 512) == v / 512 + 1 && Ceil(v, 512) == v / 512 + if v % 512 == 0 then 0 else 1
    ensures Ceil(v + 1, 512 * 512) == v / 512 / 512 + 1
    ensures Ceil(v, 512 * 512) == v / 512 / 512 + if v % (512 * 512) == 0 then 0 else 1
  {
    assert v / 512 / 512 == v / (512 * 512);
  }

  // ---- when references are lost ----

  function Total(loose: seq<nat>): nat {
    if loose == [] then 0 else loose[|loose| - 1] + Total(loose[..|loose| - 1])
  }

  lemma {:induction false} TotalBump(loose: seq<nat>, f: nat)
    requires f < |loose|
    ensures Total(loose[f := loose[f] + 1]) == Total(loose) + 1
    decreases |loose|
  {
    var bumped := loose[f := loose[f] + 1];
    var n := |loose| - 1;
    if f < n {
      assert bumped[..n] == loose[..n][f := loose[f] + 1];
      TotalBump(loose[..n], f);
    } else {
      assert bumped[..n] == loose[..n];
    }
  }

  /** The forks of a run that lose a reference. */
  ghost function LeakCount(run: seq<World>, cmds: seq<Cmd>): nat
    requires |run| == |cmds| + 1
  {
    if cmds == [] then 0
    else LeakCount(run[..|run| - 1], cmds[..|cmds| - 1]) + if Leaks(run[|cmds| - 1], cmds[|cmds| - 1]) then 1 else 0
  }

  lemma RunsFront(run: seq<World>, cmds: seq<Cmd>, oks: seq<bool>, dones: seq<nat>)
    requires Runs(run, cmds, oks, dones) && cmds != []
    ensures var n := |cmds| - 1; Runs(run[..n + 1], cmds[..n], oks[..n], dones[..n])
  {
    hide Step, Panics;
    var n := |cmds| - 1;
    forall i | 0 <= i < n
      ensures !Panics(run[..n + 1][i], cmds[..n][i])
      ensures Step(run[..n + 1][i], cmds[..n][i], oks[..n][i], dones[..n][i], run[..n + 1][i + 1])
    {
      assert !Panics(run[i], cmds[i]) && Step(run[i], cmds[i], oks[i], dones[i], run[i + 1]);
    }
  }

  /** Every leaking fork loses exactly one reference, and nothing else loses or finds any. */
  lemma {:induction false} LossIsLeaks(run: seq<World>, cmds: seq<Cmd>, oks: seq<bool>, dones: seq<nat>)
    requires Runs(run, cmds, oks, dones)
    ensures Total(run[|cmds|].loose) == Total(run[0].loose) + LeakCount(run, cmds)
    ensures LeakCount(run, cmds) == 0 ==> run[|cmds|].loose == run[0].loose
    decreases |cmds|
  {
    hide EagerStep, Leaks, Panics, OkStep, EntryStep, LostAt;
    if cmds != [] {
      var n := |cmds| - 1;
      RunsFront(run, cmds, oks, dones);
      LossIsLeaks(run[..n + 1], cmds[..n], oks[..n], dones[..n]);
      assert run[..|run| - 1] == run[..n + 1];
      assert Step(run[n], cmds[n], oks[n], dones[n], run[n + 1]);
      assert LossStep(run[n], cmds[n], run[n + 1].loose);
      if Leaks(run[n], cmds[n]) { LeakBumps(run[n], cmds[n], run[n + 1].loose); }
    }
  }

  lemma LeakBumps(s: World, cmd: Cmd, loose: seq<nat>)
    requires Leaks(s, cmd) && LostAt(s, cmd.p, cmd.c, PageCount(s.eager.sz[cmd.p]), loose)
    ensures Total(loose) == Total(s.loose) + 1
  {
    hide LastMapped, Top, Total;
    var v: nat :| v < PageCount(s.eager.sz[cmd.p]) && LostPage(s, cmd.p, cmd.c, v, loose);
    TotalBump(s.loose, s.ptes[Key(cmd.p, v)].frame);
  }

  /** The exact condition: counts stay exact through a run if and only if none of its forks leaks. */
  lemma ExactIffNoLeak(run: seq<World>, cmds: seq<Cmd>, oks: seq<bool>, dones: seq<nat>)
    requires Runs(run, cmds, oks, dones)
    ensures run[|cmds|].loose == run[0].loose <==> forall i :: 0 <= i < |cmds| ==> !Leaks(run[i], cmds[i])
  {
    hide Step, Leaks, Panics, Total;
    LossIsLeaks(run, cmds, oks, dones);
    LeakCountZero(run, cmds);
  }

  lemma {:induction false} LeakCountZero(run: seq<World>, cmds: seq<Cmd>)
    requires |run| == |cmds| + 1
    ensures LeakCount(run, cmds) == 0 <==> forall i :: 0 <= i < |cmds| ==> !Leaks(run[i], cmds[i])
    decreases |cmds|
  {
    hide Leaks;
    if cmds != [] {
      var n := |cmds| - 1;
      var run', cmds' := run[..|run| - 1], cmds[..n];
      LeakCountZero(run', cmds');
      forall i | 0 <= i < n ensures Leaks(run[i], cmds[i]) <==> Leaks(run'[i], cmds'[i]) { }
    }
  }

  // ---- fork and permissions ----

  lemma ForkReaches(s: World, p: Pid, c: Pid, done: nat, s': World, v: nat)
    requires Legal(s.eager.sz, Fork(p, c)) && Step(s, Fork(p, c), true, done, s') && v < PageCount(s.eager.sz[p])
    ensures Reached(s, c, v)
  {
    hide EagerStep, LossStep, EntryStep, Balance, Missing;
    MissingMonotone(c, 0, v, PageCount(s.eager.sz[p]), Top(c));
  }

  /**
  A store to any user page that a fork has come to, by the parent, or by the child there is if the fork succeeded, is
  let through as long as a frame is free; and after a fork that failed midway, some are.
  */
  lemma ForkMakesStorable(s: World, p: Pid, c: Pid, ok: bool, done: nat, s': World, q: Pid, v: nat)
    requires Legal(s.eager.sz, Fork(p, c)) && Step(s, Fork(p, c), ok, done, s') && (q == p || (ok && q == c))
    requires v < PageCount(s.eager.sz[p]) && v < MAXVPN && Key(p, v) in s.ptes && s.ptes[Key(p, v)].u
    requires ok || Reached(s, c, v)
    ensures StoreAllowed(s'.ptes, Key(q, v), s'.free) <==> s'.free > 0
    ensures !ok ==> s'.free > 0
  {
    hide EagerStep, LossStep, OkStep, Balance, Missing;
    assert if ok then Shared(s.ptes, s'.ptes, p, c, PageCount(s.eager.sz[p])) else UnforkedEntries(s, p, c, s');
  }

  /** The permissions of an entry, apart from the frame. */
  predicate SamePermissions(a: Pte, b: Pte) {
    a == b.(frame := a.frame)
  }

  lemma ShareThenFault(e: Pte)
    ensures SamePermissions(e.(w := false, cow := true).(w := true, cow := false), e) <==> e.w && !e.cow
  {
  }

  /**
  Permissions survive a fork, whether it succeeds or not, and the faults after it exactly where the page was writable
  and, if the fork came to it, not copy-on-write before.
  */
  lemma PermissionsSurviveIff(s: World, p: Pid, c: Pid, ok: bool, d: nat, s1: World, q: Pid, va: nat, b: Byte, d': nat,
                              s2: World)
    requires Legal(s.eager.sz, Fork(p, c)) && Step(s, Fork(p, c), ok, d, s1) && (q == p || (ok && q == c))
    requires va / PGSIZE < PageCount(s.eager.sz[p]) && Key(p, va / PGSIZE) in s.ptes
    requires Legal(s1.eager.sz, Cmd.Store(q, va, b)) && Step(s1, Cmd.Store(q, va, b), true, d', s2)
    ensures Key(q, va / PGSIZE) in s2.ptes
    ensures SamePermissions(s2.ptes[Key(q, va / PGSIZE)], s.ptes[Key(p, va / PGSIZE)]) <==>
            s.ptes[Key(p, va / PGSIZE)].w && (Reached(s, c, va / PGSIZE) ==> !s.ptes[Key(p, va / PGSIZE)].cow)
  {
    hide EagerStep, LossStep, Balance, Missing;
    if ok { ForkReaches(s, p, c, d, s1, va / PGSIZE); }
    assert if ok then Shared(s.ptes, s1.ptes, p, c, PageCount(s.eager.sz[p])) else UnforkedEntries(s, p, c, s1);
    assert Stored(s1, s2, Key(q, va / PGSIZE));
    ShareThenFault(s.ptes[Key(p, va / PGSIZE)]);
  }

  /** Every process has exactly the pages below its size, and its page table. */
  ghost predicate Sized(ptes: Ptes, tables: Tables, sz: map<Pid, nat>) {
    && (forall k :: k in ptes <==> k.pid in sz && k.vpn < PageCount(sz[k.pid]))
    && (forall p :: p in sz ==> PageCount(sz[p]) <= TRAPFRAME_VPN)
    && (forall p :: p in sz ==> Table(p, 2, 0) in tables && Trapframe(p) in tables)
    && (forall t :: t in tables ==> t.pid in sz)
  }

  lemma ForkSized(ptes: Ptes, tables: Tables, sz: map<Pid, nat>, ptes': Ptes, tables': Tables, m: map<Key, Page>,
                  m': map<Key, Page>, p: Pid, c: Pid)
    requires Sized(ptes, tables, sz) && p in sz && c !in sz
    requires (forall k :: k in m <==> k in ptes) && (forall k :: k in m' <==> k in ptes')
    requires Forked(m, m', p, c, PageCount(sz[p]))
    requires SpaceAdded(c, tables, tables') && Table(c, 2, 0) in tables' && Trapframe(c) in tables'
    ensures Sized(ptes', tables', sz[c := sz[p]])
  {
    forall k
      ensures k in ptes' <==> k.pid in sz[c := sz[p]] && k.vpn < PageCount(sz[c := sz[p]][k.pid])
    {
      if k.pid == c {
        assert k == Key(c, k.vpn);
      }
    }
  }

  lemma GrowSized(ptes: Ptes, tables: Tables, sz: map<Pid, nat>, ptes': Ptes, tables': Tables, p: Pid, newsz: nat)
    requires Sized(ptes, tables, sz) && p in sz && sz[p] <= newsz && PageCount(newsz) <= TRAPFRAME_VPN
    requires Added(ptes, ptes', p, PageCount(sz[p]), PageCount(newsz)) && GrownFor(p, tables, tables')
    ensures Sized(ptes', tables', sz[p := newsz])
  {
    forall k
      ensures k in ptes' <==> k.pid in sz && k.vpn < PageCount(sz[p := newsz][k.pid])
    {
      if k.pid == p {
        assert k == Key(p, k.vpn);
      }
    }
  }

  lemma RoomToFork(ptes: Ptes, tables: Tables, sz: map<Pid, nat>, p: Pid, c: Pid)
    requires Sized(ptes, tables, sz) && p in sz && c !in sz
    ensures p != c && sz[p] <= MAXVPN * PGSIZE && Pages(p, 0, PageCount(sz[p])) <= ptes.Keys
    ensures (forall k :: k in ptes ==> k.pid != c) && forall v: nat :: v < PageCount(sz[p]) ==> Key(p, v) in ptes
  {
  }

  /** Growth after the space was made only adds to it. */
  lemma SpaceGrown(c: Pid, tables: Tables, tables1: Tables, tables2: Tables)
    requires SpaceAdded(c, tables, tables1) && GrownFor(c, tables1, tables2)
    ensures SpaceAdded(c, tables, tables2) && tables1.Keys <= tables2.Keys
  {
  }

  /** The child's tables are gone again. */
  lemma AbandonedSized(ptes: Ptes, tables: Tables, sz: map<Pid, nat>, ptes': Ptes, tables2: Tables, tables3: Tables,
                       c: Pid)
    requires Sized(ptes, tables, sz) && c !in sz && ptes'.Keys == ptes.Keys && SpaceAdded(c, tables, tables2)
    requires forall t :: t in tables3 <==> t in tables2 && t.pid != c
    ensures Sized(ptes', tables3, sz)
  {
    forall k: Key ensures k in ptes' <==> k in ptes { assert k in ptes'.Keys <==> k in ptes.Keys; }
  }

  lemma RoomToGrow(ptes: Ptes, tables: Tables, sz: map<Pid, nat>, p: Pid)
    requires Sized(ptes, tables, sz) && p in sz
    ensures Table(p, 2, 0) in tables && PageCount(sz[p]) <= TRAPFRAME_VPN
    ensures forall v: nat :: v >= PageCount(sz[p]) ==> Key(p, v) !in ptes
  {
  }

  /** The same leaf entries, with perhaps more tables for p. */
  lemma MoreTablesSized(ptes: Ptes, tables: Tables, sz: map<Pid, nat>, ptes': Ptes, tables': Tables, p: Pid)
    requires Sized(ptes, tables, sz) && p in sz && ptes'.Keys == ptes.Keys && GrownFor(p, tables, tables')
    ensures Sized(ptes', tables', sz)
  {
    forall k: Key ensures k in ptes' <==> k in ptes { assert k in ptes'.Keys <==> k in ptes.Keys; }
  }

  lemma ShrinkSized(ptes: Ptes, tables: Tables, sz: map<Pid, nat>, p: Pid, newsz: nat)
    requires Sized(ptes, tables, sz) && p in sz && newsz <= sz[p]
    ensures Pages(p, PageCount(newsz), PageCount(sz[p])) <= ptes.Keys
    ensures Sized(ptes - Pages(p, PageCount(newsz), PageCount(sz[p])), tables, sz[p := newsz])
  {
    forall k: Key | k.pid == p
      ensures k in Pages(p, PageCount(newsz), PageCount(sz[p])) <==> PageCount(newsz) <= k.vpn < PageCount(sz[p])
    {
      assert k == Key(p, k.vpn);
    }
  }

  /** Nothing is left of process p, nor of its tables. */
  lemma ExitSized(ptes: Ptes, tables: Tables, sz: map<Pid, nat>, ptes': Ptes, tables': Tables, p: Pid)
    requires Sized(ptes, tables, sz) && p in sz && ptes' == ptes - Pages(p, 0, PageCount(sz[p]))
    requires forall t :: t in tables' <==> t in tables && t.pid != p
    ensures Sized(ptes', tables', sz - {p})
  {
    forall k: Key | k.pid == p ensures k in Pages(p, 0, PageCount(sz[p])) <==> k.vpn < PageCount(sz[p]) {
      assert k == Key(p, k.vpn);
    }
  }

  lemma RoomToExit(ptes: Ptes, tables: Tables, sz: map<Pid, nat>, p: Pid)
    requires Sized(ptes, tables, sz) && p in sz
    ensures Table(p, 2, 0) in tables && Trapframe(p) in tables && Pages(p, 0, PageCount(sz[p])) <= ptes.Keys
    ensures forall k :: k in ptes && k.pid == p ==> k.vpn < PageCount(sz[p])
  {
  }

  lemma SizeInRange(ptes: Ptes, tables: Tables, sz: map<Pid, nat>, p: Pid)
    requires Sized(ptes, tables, sz) && p in sz
    ensures PageCount(sz[p]) <= TRAPFRAME_VPN
  {
  }

  lemma NoTablesOf(ptes: Ptes, tables: Tables, sz: map<Pid, nat>, c: Pid)
    requires Sized(ptes, tables, sz) && c !in sz
    ensures (forall t :: t in tables ==> t.pid != c) && forall k :: k in ptes ==> k.pid != c
  {
  }

  lemma NothingDone(s: World, cmd: Cmd)
    ensures !Legal(s.eager.sz, cmd) ==> !Panics(s, cmd) && Step(s, cmd, true, 0, s)
    ensures cmd.Spawn? || cmd.Fork? || cmd.Store? || cmd.CopyOut? || cmd.Exit? ==> !Panics(s, cmd)
  {
    hide Balance, GrowthFrames;
  }

  lemma NeverLeaks(s: World, cmd: Cmd)
    ensures !cmd.Fork? ==> !Leaks(s, cmd)
  {
  }

  lemma SameKeysSized(ptes: Ptes, tables: Tables, sz: map<Pid, nat>, ptes': Ptes)
    requires Sized(ptes, tables, sz) && ptes'.Keys == ptes.Keys
    ensures Sized(ptes', tables, sz)
  {
    forall k: Key ensures k in ptes' <==> k in ptes { assert k in ptes'.Keys <==> k in ptes.Keys; }
  }

  lemma NoGrowth(p: Pid, lo: nat, have: set<Table>)
    ensures GrowthFrames(p, lo, lo, have) == 0
  {
    NoneWanted(p, lo, have);
  }

  /** More pages take more frames. */
  lemma MoreToGrow(p: Pid, lo: nat, hi: nat, have: set<Table>)
    ensures lo <= TRAPFRAME_VPN <= hi ==>
              GrowthFrames(p, lo, TRAPFRAME_VPN, have) + (hi - TRAPFRAME_VPN) <= GrowthFrames(p, lo, hi, have)
  {
    if lo <= TRAPFRAME_VPN <= hi { MissingMonotone(p, lo, TRAPFRAME_VPN, hi, have); }
  }

  lemma {:induction false} WantedOf(p: Pid, lo: nat, hi: nat)
    ensures forall t <- Wanted(p, lo, hi) :: t.Table? && t.pid == p
    decreases hi
  {
    if lo < hi { WantedOf(p, lo, hi - 1); }
  }

  /** What fork has to allocate does not depend on the tables of other processes. */
  lemma MissingTop(tables: set<Table>, c: Pid, n: nat)
    requires forall t <- tables :: t.pid != c
    ensures Missing(c, 0, n, tables + {Trapframe(c)} + Top(c)) == Missing(c, 0, n, Top(c))
  {
    WantedOf(c, 0, n);
    assert Wanted(c, 0, n) - (tables + {Trapframe(c)} + Top(c)) == Wanted(c, 0, n) - Top(c);
  }

  lemma TopSuffices(tables: Tables, sz: map<Pid, nat>, ptes: Ptes, c: Pid, n: nat)
    requires Sized(ptes, tables, sz) && c !in sz
    ensures Missing(c, 0, n, tables.Keys + {Trapframe(c)} + Top(c)) == Missing(c, 0, n, Top(c))
  {
    hide Top;
    NoTablesOf(ptes, tables, sz, c);
    MissingTop(tables.Keys, c, n);
  }

  lemma LossFound(s: World, p: Pid, c: Pid, tables: Tables, loose: seq<nat>)
    requires Sized(s.ptes, tables, s.eager.sz) && p in s.eager.sz && c !in s.eager.sz && s.free >= 4
    requires CopyLost(s.ptes, p, c, PageCount(s.eager.sz[p]), tables.Keys + {Trapframe(c)} + Top(c), s.free - 4,
                      s.loose, loose)
    ensures LostAt(s, p, c, PageCount(s.eager.sz[p]), loose)
  {
    hide LostFrameOf, Top, Sized;
    var have := tables.Keys + {Trapframe(c)} + Top(c);
    var v: nat :| v < PageCount(s.eager.sz[p]) && LastMapped(c, v, have, s.free - 4)
                  && LostFrameOf(s.ptes, Key(p, v), s.loose, loose);
    TopSuffices(tables, s.eager.sz, s.ptes, c, v);
    TopSuffices(tables, s.eager.sz, s.ptes, c, v + 1);
    LossIs(s, p, c, v, loose);
  }

  lemma LossIs(s: World, p: Pid, c: Pid, v: nat, loose: seq<nat>)
    requires LostFrameOf(s.ptes, Key(p, v), s.loose, loose) && s.free >= 4 && LastMapped(c, v, Top(c), s.free - 4)
    ensures LostPage(s, p, c, v, loose)
  {
  }

  /** What the failing uvmcopy has left of the entries. */
  lemma UnforkedFound(s: World, p: Pid, c: Pid, tables: Tables, s': World)
    requires Sized(s.ptes, tables, s.eager.sz) && p in s.eager.sz && c !in s.eager.sz && s.free >= 4
    requires Marked(s.ptes, s'.ptes, p, c, tables.Keys + {Trapframe(c)} + Top(c), s.free - 4)
    requires s'.tables == s.tables && s'.free == s.free
    ensures UnforkedEntries(s, p, c, s')
  {
    hide Top, Sized, Missing;
    forall k | k in s.ptes
      ensures s'.ptes[k] ==
              if k.pid == p && Reached(s, c, k.vpn) then s.ptes[k].(w := false, cow := true) else s.ptes[k]
    {
      TopSuffices(tables, s.eager.sz, s.ptes, c, k.vpn);
    }
  }

  lemma AbandonStep(s: World, p: Pid, c: Pid, tables: Tables, s': World)
    requires Legal(s.eager.sz, Fork(p, c)) && 4 <= s.free < ForkFrames(c, PageCount(s.eager.sz[p]))
    requires Sized(s.ptes, tables, s.eager.sz) && s.tables == tables.Keys
    requires Marked(s.ptes, s'.ptes, p, c, tables.Keys + {Trapframe(c)} + Top(c), s.free - 4)
    requires LostAt(s, p, c, PageCount(s.eager.sz[p]), s'.loose)
    requires s'.eager == s.eager && s'.tables == s.tables && Balance(s') == Balance(s)
    ensures Step(s, Fork(p, c), false, 0, s')
  {
    hide Sized, Missing, Top, LostAt, Marked, Named, Step, UnforkedEntries;
    MarkedFrames(s.ptes, s'.ptes, p, c, tables.Keys + {Trapframe(c)} + Top(c), s.free - 4);
    LostIsNamed(s, p, c, PageCount(s.eager.sz[p]), s'.ptes, s'.loose);
    UnforkedFound(s, p, c, tables, s');
    FailedForkStep(s, p, c, s');
  }

  /** A reference lost to a mapped frame names nothing new. */
  lemma LostIsNamed(s: World, p: Pid, c: Pid, n: nat, ptes': Ptes, loose': seq<nat>)
    requires LostAt(s, p, c, n, loose') && ptes'.Keys == s.ptes.Keys && SameFrames(s.ptes, ptes')
    ensures Named(ptes', loose') == Named(s.ptes, s.loose)
  {
    hide LastMapped, Top;
    var v: nat :| v < n && LostPage(s, p, c, v, loose');
    SameNamed(s.ptes, ptes');
    var g := s.ptes[Key(p, v)].frame;
    assert Mapped(s.ptes, g);
    forall f: Frame ensures f in Named(ptes', loose') <==> f in Named(s.ptes, s.loose) { }
  }

  lemma SameNamed(ptes: Ptes, ptes': Ptes)
    requires ptes'.Keys == ptes.Keys && SameFrames(ptes, ptes')
    ensures forall f: Frame :: Mapped(ptes, f) <==> Mapped(ptes', f)
  {
    forall f: Frame ensures Mapped(ptes, f) <==> Mapped(ptes', f) {
      if Mapped(ptes, f) { var k :| k in ptes && ptes[k].frame == f; assert k in ptes' && ptes'[k].frame == f; }
      if Mapped(ptes', f) { var k :| k in ptes' && ptes'[k].frame == f; assert k in ptes'.Keys && ptes[k].frame == f; }
    }
  }

  lemma MarkedFrames(m: Ptes, m': Ptes, p: Pid, c: Pid, have: set<Table>, n: nat)
    requires Marked(m, m', p, c, have, n)
    ensures m'.Keys == m.Keys && SameFrames(m, m')
  {
    hide Missing;
    forall k | k in m ensures k in m' && m'[k].frame == m[k].frame { assert k in m.Keys; }
  }

  lemma OthersAre(tables: Tables, tables': Tables, p: Pid)
    requires forall t :: t in tables' <==> t in tables && t.pid != p
    ensures tables'.Keys == OthersTables(tables.Keys, p)
  {
  }

  /** Without the tables of c, those that were there before are left. */
  lemma TablesBack(c: Pid, tables: Tables, tables2: Tables, tables3: Tables)
    requires SpaceAdded(c, tables, tables2) && forall t :: t in tables3 <==> t in tables2 && t.pid != c
    requires forall t :: t in tables ==> t.pid != c
    ensures tables3.Keys == tables.Keys
  {
  }

  lemma NothingGone<T>(m: map<Key, T>)
    ensures m - {} == m
  {
  }

  lemma SameKeys(ptes: Ptes, ptes': Ptes, c: Pid)
    requires ptes.Keys == ptes'.Keys && forall k :: k in ptes' ==> k.pid != c
    ensures forall k :: k in ptes ==> k.pid != c
  {
    forall k | k in ptes ensures k.pid != c { assert k in ptes'.Keys; }
  }

  lemma NoShrink(p: Pid, lo: nat, hi: nat)
    requires hi <= lo
    ensures Pages(p, lo, hi) == {}
  {
  }

  class Processes {
    const mem: Memory
    var sz: map<Pid, nat>

    ghost predicate Valid()
      reads this, mem
    {
      mem.Valid() && Sized(mem.ptes, mem.tables, sz)
    }

    ghost function Abs(): Eager
      reads this, mem
      requires Valid()
    {
      Eager(mem.View(), sz)
    }

    ghost function W(): World
      reads this, mem
      requires Valid()
    {
      World(Abs(), mem.ptes, mem.tables.Keys, |mem.free|, mem.loose)
    }

    /** The frames of the machine. */
    lemma Accounted()
      requires Valid()
      ensures Balance(W()) == mem.frames
    {
      hide Memory.Valid, Memory.View, Named, Sized;
      mem.Accounts();
    }

    lemma SharedIsCow()
      requires Valid()
      ensures Sharing(W().ptes)
    {
    }

    constructor Boot(frames: nat)
      ensures Valid() && fresh(mem) && W() == Booted(frames)
    {
      mem := new Memory.Kinit(frames);
      sz := map[];
    }

    method Spawn(p: Pid) returns (ok: bool)
      requires Valid() && p !in sz
      modifies this, mem
      ensures Valid() && Step(old(W()), Cmd.Spawn(p), ok, 0, W())
    {
      hide Memory.Valid, Memory.View, Top, Step, Balance;
      Accounted();
      ghost var s := W();
      ok := mem.CreateSpace(p);
      if ok {
        sz := sz[p := 0];
      }
      Accounted();
      SpawnStep(s, p, ok, W());
    }

    /** fork. It loses a reference just when there is memory for a new process but not for all of its tables. */
    method Fork(p: Pid, c: Pid) returns (ok: bool)
      requires Valid() && p in sz && c !in sz
      modifies this, mem
      ensures Valid() && Step(old(W()), Cmd.Fork(p, c), ok, 0, W())
    {
      hide Memory.Valid, Memory.View, Top, LostAt, Shared, Forked, SpaceAdded, Missing, LastMapped, Sized, Step,
           Balance;
      ghost var s, tables := W(), mem.tables;
      Accounted();
      NoTablesOf(mem.ptes, mem.tables, sz, c);
      ok := mem.CreateSpace(c);
      if ok {
        ok := ForkInto(p, c, s, tables);
      } else {
        Accounted();
        SameFree(s, W());
        NoForkStep(s, p, c, W());
      }
    }

    /** fork after allocproc: uvmcopy, or freeproc of the new process. s is the state before allocproc. */
    method ForkInto(p: Pid, c: Pid, ghost s: World, ghost tables: Tables) returns (ok: bool)
      requires mem.Valid() && p in sz && c !in sz && Sized(mem.ptes, tables, sz) && s.free >= 4
      requires SpaceAdded(c, tables, mem.tables) && Table(c, 2, 0) in mem.tables && Trapframe(c) in mem.tables
      requires s == World(Eager(mem.View(), sz), mem.ptes, tables.Keys, |mem.free| + 4, mem.loose)
      requires mem.tables.Keys == tables.Keys + {Trapframe(c)} + Top(c) && Balance(s) == mem.frames
      modifies this, mem
      ensures Valid() && Step(s, Cmd.Fork(p, c), ok, 0, W())
    {
      hide Memory.Valid, Memory.View, Forked, Sized, Pages, GrownFor, SpaceAdded, Shared, Missing, Top, CopyLost,
           LostAt, Step, Balance, Marked, Wanted;
      ghost var tables1 := mem.tables;
      mem.ViewKeys();
      RoomToFork(mem.ptes, tables, sz, p, c);
      TopSuffices(tables, sz, mem.ptes, c, PageCount(sz[p]));
      ok := mem.UvmCopy(p, c, sz[p]);
      SpaceGrown(c, tables, tables1, mem.tables);
      if ok {
        mem.ViewKeys();
        ForkSized(s.ptes, tables, sz, mem.ptes, mem.tables, s.eager.mem, mem.View(), p, c);
        sz := sz[c := sz[p]];
        Accounted();
        ForkedStep(s, p, c, W());
      } else {
        LossFound(s, p, c, tables, mem.loose);
        Abandon(p, c, s, tables);
      }
    }

    /** freeproc of a child that has its tables but not its pages. */
    method Abandon(p: Pid, c: Pid, ghost s: World, ghost tables: Tables)
      requires mem.Valid() && Sized(s.ptes, tables, sz) && p in sz && c !in sz && s.eager == Eager(mem.View(), sz)
      requires 4 <= s.free < ForkFrames(c, PageCount(sz[p])) && LostAt(s, p, c, PageCount(sz[p]), mem.loose)
      requires SpaceAdded(c, tables, mem.tables) && Table(c, 2, 0) in mem.tables && Trapframe(c) in mem.tables
      requires s.eager.mem.Keys == s.ptes.Keys && s.tables == tables.Keys && Balance(s) == mem.frames
      requires Marked(s.ptes, mem.ptes, p, c, tables.Keys + {Trapframe(c)} + Top(c), s.free - 4)
      modifies mem
      ensures Valid() && Step(s, Cmd.Fork(p, c), false, 0, W())
    {
      hide Memory.Valid, Memory.View, Sized, Pages, SpaceAdded, ForkFrames, LostAt, Step, Marked, Top, Balance;
      mem.ViewKeys();
      RoomToFork(s.ptes, tables, sz, p, c);
      NoShrink(c, 0, 0);
      NothingGone(mem.View());
      NothingGone(mem.ptes);
      SameKeys(mem.ptes, s.ptes, c);
      NoTablesOf(s.ptes, tables, sz, c);
      ghost var tables2 := mem.tables;
      mem.DestroySpace(c, 0);
      mem.ViewKeys();
      AbandonedSized(s.ptes, tables, sz, mem.ptes, tables2, mem.tables, c);
      TablesBack(c, tables, tables2, mem.tables);
      Accounted();
      AbandonStep(s, p, c, tables, W());
    }

    method Store(p: Pid, va: nat, b: Byte) returns (ok: bool)
      requires Valid() && p in sz
      modifies mem
      ensures Valid() && Step(old(W()), Cmd.Store(p, va, b), ok, 0, W())
    {
      hide Memory.Valid, Memory.View, Wrote, Sized, Leaks, Named;
      ghost var s := W();
      Accounted();
      NeverLeaks(s, Cmd.Store(p, va, b));
      mem.FreeUnnamed();
      ok := mem.UserStore(p, va, b);
      SameKeysSized(s.ptes, mem.tables, sz, mem.ptes);
      Accounted();
    }

    method CopyOut(p: Pid, dst: nat, src: seq<Byte>) returns (ok: bool, ghost done: nat)
      requires Valid() && p in sz
      modifies mem
      ensures Valid() && Step(old(W()), Cmd.CopyOut(p, dst, src), ok, done, W())
    {
      hide Memory.Valid, Memory.View, Wrote, Sized, Leaks, Named, MadePrivate;
      ghost var s := W();
      Accounted();
      NeverLeaks(s, Cmd.CopyOut(p, dst, src));
      ok, done := mem.CopyOut(p, dst, src);
      SameKeysSized(s.ptes, mem.tables, sz, mem.ptes);
      Accounted();
    }

    /** growproc. Shrinking by more than the size wraps around, changes nothing and succeeds. */
    method Grow(p: Pid, n: int) returns (ok: bool, panic: bool)
      requires Valid() && Legal(sz, Cmd.Grow(p, n))
      modifies this, mem
      ensures panic <==> Panics(old(W()), Cmd.Grow(p, n))
      ensures !panic ==> Valid() && Step(old(W()), Cmd.Grow(p, n), ok, 0, W())
    {
      hide Memory.Valid, Memory.View, Sized, Step, Panics, Balance;
      if n > 0 {
        ok, panic := Widen(p, Cmd.Grow(p, n));
      } else {
        Cut(p, n);
        ok, panic := true, false;
      }
    }

    /** growproc with nothing or less. */
    method Cut(p: Pid, n: int)
      requires Valid() && p in sz && -INT_MAX - 1 <= n <= 0
      modifies this, mem
      ensures Valid() && Step(old(W()), Cmd.Grow(p, n), true, 0, W()) && !Panics(old(W()), Cmd.Grow(p, n))
    {
      hide Memory.Valid, Memory.View, Sized, Step, Panics, Balance, Pages;
      ghost var s := W();
      Accounted();
      NoShrink(p, PageCount(sz[p]), PageCount(sz[p]));
      NothingGone(mem.ptes);
      NothingGone(mem.View());
      assert sz[p := sz[p]] == sz;
      if n < 0 { Shrink(p, n); }
      Accounted();
      CutStep(s, p, n, W());
    }

    /** uvmalloc from the size of p on; it panics at the trapframe page, if memory lasts that far. */
    method Widen(p: Pid, cmd: Cmd) returns (ok: bool, panic: bool)
      requires Valid() && Legal(sz, cmd) && (cmd.Grow? || cmd.Load?) && cmd.p == p && (cmd.Grow? ==> cmd.n > 0)
      modifies this, mem
      ensures panic <==> Panics(old(W()), cmd)
      ensures !panic ==> Valid() && Step(old(W()), cmd, ok, 0, W())
    {
      hide Memory.Valid, Memory.View, Sized, Balance, Outcome, Enlarged, Step, Panics, PageCount;
      ghost var s := W();
      Accounted();
      RoomToGrow(mem.ptes, mem.tables, sz, p);
      var r := Enlarge(p, cmd.n, cmd.Grow? || cmd.w, cmd.Load? && cmd.x);
      ok, panic := r.Grew?, r.Panic?;
      OutcomeIs(s, cmd, r);
      if !panic {
        Accounted();
        if ok { GrewStep(s, cmd, W()); } else { NotGrownStep(s, cmd, W()); }
      }
    }

    method Enlarge(p: Pid, n: nat, xw: bool, xx: bool) returns (r: Growth)
      requires Valid() && p in sz
      modifies this, mem
      ensures p in old(W()).eager.sz && Outcome(old(W()), p, n, r)
      ensures !r.Panic? ==> Valid() && Enlarged(old(W()), p, n, xw, xx, r.Grew?, W())
    {
      hide Memory.Valid, Memory.View, Grown, Sized, GrowthFrames, GrownFor, ZeroEntries, StoppedAt, Wanted;
      RoomToGrow(mem.ptes, mem.tables, sz, p);
      r := mem.UvmAlloc(p, sz[p], sz[p] + n, xw, xx);
      if r.Grew? {
        GrowSized(old(mem.ptes), old(mem.tables), sz, mem.ptes, mem.tables, p, sz[p] + n);
        sz := sz[p := r.sz];
      } else if r.NoMemory? {
        MoreTablesSized(old(mem.ptes), old(mem.tables), sz, mem.ptes, mem.tables, p);
      }
    }

    method Shrink(p: Pid, n: int)
      requires Valid() && p in sz && -INT_MAX - 1 <= n < 0
      modifies this, mem
      ensures Valid() && mem.loose == old(mem.loose) && mem.tables == old(mem.tables)
      ensures mem.ptes == if old(sz)[p] + n < 0 then old(mem.ptes)
                          else old(mem.ptes) - Pages(p, PageCount(old(sz)[p] + n), PageCount(old(sz)[p]))
      ensures if old(sz)[p] + n < 0 then Abs() == old(Abs())
              else && mem.View() == old(mem.View()) - Pages(p, PageCount(old(sz)[p] + n), PageCount(old(sz)[p]))
                   && sz == old(sz)[p := old(sz)[p] + n]
    {
      hide Memory.Valid, Memory.View, Pages, Sized;
      SizeInRange(mem.ptes, mem.tables, sz, p);
      var newsz := NewSize(sz[p], n);
      if sz[p] + n < 0 {
        NoShrink(p, PageCount(newsz), PageCount(sz[p]));
      } else {
        ShrinkSized(mem.ptes, mem.tables, sz, p, newsz);
      }
      assert sz[p := sz[p]] == sz && mem.ptes - {} == mem.ptes;
      var r := mem.UvmDealloc(p, sz[p], newsz);
      sz := sz[p := r];
    }

    method Exit(p: Pid)
      requires Valid() && p in sz
      modifies this, mem
      ensures Valid() && Step(old(W()), Cmd.Exit(p), true, 0, W())
    {
      hide Memory.Valid, Memory.View, Sized, Named, Pages;
      Accounted();
      RoomToExit(mem.ptes, mem.tables, sz, p);
      ghost var leaves, tables := mem.ptes, mem.tables;
      mem.DestroySpace(p, sz[p]);
      ExitSized(leaves, tables, sz, mem.ptes, mem.tables, p);
      sz := sz - {p};
      OthersAre(tables, mem.tables, p);
      Accounted();
    }

    method Do(cmd: Cmd) returns (ok: bool, ghost done: nat, panic: bool)
      requires Valid()
      modifies this, mem
      ensures panic <==> Panics(old(W()), cmd)
      ensures !panic ==> Valid() && Step(old(W()), cmd, ok, done, W())
    {
      hide Memory.Valid, Memory.View, Sized, Step, Panics, Balance;
      ok, done, panic := true, 0, false;
      NothingDone(W(), cmd);
      if Legal(sz, cmd) {
        match cmd
        case Spawn(p) => ok := Spawn(p);
        case Fork(p, c) => ok := Fork(p, c);
        case Store(p, va, b) => ok := Store(p, va, b);
        case CopyOut(p, dst, src) => ok, done := CopyOut(p, dst, src);
        case Grow(p, n) => ok, panic := Grow(p, n);
        case Load(p, _, _, _) => ok, panic := Widen(p, cmd);
        case Exit(p) => Exit(p);
      }
    }

    /**
    Any commands, up to the first that panics. Each step says exactly whether it succeeds, what it does
    to memory as the eager machine sees it and to the entries and tables, and whether it loses a reference; and at no
    time is a frame mapped twice that is not copy-on-write and unwritable in both places.
    */
    method Run(cmds: seq<Cmd>) returns (oks: seq<bool>, ghost dones: seq<nat>, ghost run: seq<World>, panic: bool)
      requires Valid()
      modifies this, mem
      ensures |oks| <= |cmds| && Runs(run, cmds[..|oks|], oks, dones) && run[0] == old(W())
      ensures forall w <- run :: Sharing(w.ptes)
      ensures panic <==> |oks| < |cmds|
      ensures panic ==> Panics(run[|oks|], cmds[|oks|])
      ensures !panic ==> Valid() && run[|cmds|] == W()
    {
      hide Memory.Valid, Memory.View, Sized, Step, Panics, Sharing;
      oks, dones, run, panic := [], [], [W()], false;
      SharedIsCow();
      assert Runs(run, cmds[..0], oks, dones);
      while |oks| < |cmds|
        invariant |oks| <= |cmds| && Valid() && !panic
        invariant Runs(run, cmds[..|oks|], oks, dones) && forall w <- run :: Sharing(w.ptes)
        invariant run[0] == old(W()) && run[|oks|] == W()
        decreases |cmds| - |oks|
      {
        var ok;
        ghost var done;
        var i := |oks|;
        ok, done, panic := Do(cmds[i]);
        if panic { return; }
        SharedIsCow();
        RunsExtend(run, cmds[..i], oks, dones, cmds[i], ok, done, W());
        assert cmds[..i + 1] == cmds[..i] + [cmds[i]];
        oks, dones, run := oks + [ok], dones + [done], run + [W()];
      }
      assert cmds[..|cmds|] == cmds;
    }

    /** Counts are exact as long as nothing has been lost, and free frames are those with none. */
    lemma ExactCounts()
      requires Valid() && forall f :: 0 <= f < |mem.loose| ==> mem.loose[f] == 0
      ensures |mem.count| == mem.frames
      ensures forall f :: 0 <= f < mem.frames ==>
                && mem.count[f] == |UserRefs(mem.ptes, f)| + |TableRefs(mem.tables, f)|
                && (f in mem.free <==> UserRefs(mem.ptes, f) == {} && TableRefs(mem.tables, f) == {})
    {
    }
  }

  // ---- inputs for which the code does not do what one would wish ----

  /** A process of one page, made with growproc, and a fork. */
  const LOSING: seq<Cmd> := [Spawn(1), Grow(1, PGSIZE), Fork(1, 2)]

  /** A process whose one page exec has mapped as text, readable and executable; it stores, forks and stores. */
  const TEXT_STORE: seq<Cmd> :=
    [Spawn(1), Load(1, PGSIZE, false, true), Cmd.Store(1, 0, 7), Fork(1, 2), Cmd.Store(1, 0, 7)]

  lemma FirstPage(p: Pid, have: set<Table>)
    requires have == {} + {Trapframe(p)} + Top(p)
    ensures GrowthFrames(p, 0, 1, have) == 3 && PageCount(0) == 0 && PageCount(PGSIZE) == 1
  {
    MissingTop({}, p, 1);
    ForkFramesIs(p, 1);
  }

  lemma SpawnFirst(n: nat, ok: bool, done: nat, s': World)
    requires n >= 4 && Step(Booted(n), Spawn(1), ok, done, s')
    ensures ok && s'.eager.sz == map[1 := 0] && s'.free == n - 4 && s'.loose == Booted(n).loose
    ensures GrowthFrames(1, 0, 1, s'.tables) == 3 && PageCount(0) == 0 && PageCount(PGSIZE) == 1
  {
    hide Top, GrowthFrames, Named;
    FirstPage(1, s'.tables);
  }

  lemma NeverPanics(s: World, cmd: Cmd)
    ensures Growing(cmd) == 0 ==> !Panics(s, cmd)
  {
    hide GrowthFrames;
  }

  lemma FirstFits(s: World, cmd: Cmd)
    requires cmd == Grow(1, PGSIZE) || cmd == Load(1, PGSIZE, false, true)
    requires s.eager.sz == map[1 := 0] && PageCount(PGSIZE) == 1
    ensures !Panics(s, cmd)
  {
    hide GrowthFrames;
  }

  lemma GrowFirst(s: World, cmd: Cmd, ok: bool, done: nat, s': World)
    requires cmd == Grow(1, PGSIZE) || cmd == Load(1, PGSIZE, false, true)
    requires s.eager.sz == map[1 := 0] && s.free >= 3 && GrowthFrames(1, 0, 1, s.tables) == 3
    requires PageCount(0) == 0 && PageCount(PGSIZE) == 1 && Step(s, cmd, ok, done, s')
    ensures ok && s'.eager.sz == map[1 := PGSIZE] && s'.free == s.free - 3 && s'.loose == s.loose
    ensures ZeroEntry(s'.ptes, Key(1, 0), cmd.Grow?, cmd.Load?)
  {
    hide GrowthFrames, Grown, Added, Named, Wanted;
    assert Widened(s, cmd, s');
  }

  lemma ForkNext(s: World, ok: bool, done: nat, s': World)
    requires s.eager.sz == map[1 := PGSIZE] && PageCount(PGSIZE) == 1 && Step(s, Fork(1, 2), ok, done, s')
    ensures ok <==> s.free >= 6
    ensures Leaks(s, Fork(1, 2)) <==> 4 <= s.free < 6
    ensures 1 in s'.eager.sz
    ensures ok ==> s'.free == s.free - 6
    ensures Leaks(s, Fork(1, 2)) ==> s'.free == s.free
    ensures s.free >= 4 && Key(1, 0) in s.ptes ==>
              Key(1, 0) in s'.ptes && s'.ptes[Key(1, 0)] == s.ptes[Key(1, 0)].(w := false, cow := true)
  {
    hide Forked, LostAt, Missing, Top, LastMapped, Balance, Wanted;
    ForkFramesIs(2, 1);
    NoneWanted(2, 0, Top(2));
    if ok { assert Shared(s.ptes, s'.ptes, 1, 2, 1); }
    else if s.free >= 4 { assert Reached(s, 2, 0) && UnforkedEntries(s, 1, 2, s'); }
  }

  lemma StoreNext(s: World, ok: bool, done: nat, s': World)
    requires 1 in s.eager.sz && Step(s, Cmd.Store(1, 0, 7), ok, done, s')
    ensures ok <==> StoreAllowed(s.ptes, Key(1, 0), s.free)
    ensures !ok ==> s'.ptes == s.ptes && s'.free == s.free && s'.eager == s.eager
  {
    hide Wrote, Balance, Named;
  }

  lemma Taken(run: seq<World>, cmds: seq<Cmd>, oks: seq<bool>, dones: seq<nat>, k: nat, i: nat)
    requires k <= |cmds| && Runs(run, cmds[..k], oks, dones) && i < k
    ensures Step(run[i], cmds[i], oks[i], dones[i], run[i + 1])
  {
    hide Step, Panics;
    assert cmds[..k][i] == cmds[i];
  }

  /** A run of LOSING from a boot with 11 frames, perhaps cut short by a panic. */
  lemma LosingRun(oks: seq<bool>, dones: seq<nat>, run: seq<World>)
    requires |oks| <= 3 && Runs(run, LOSING[..|oks|], oks, dones) && run[0] == Booted(11)
    requires |oks| < 3 ==> Panics(run[|oks|], LOSING[|oks|])
    ensures oks == [true, true, false] && Leaks(run[2], LOSING[2]) && Total(run[3].loose) == 1
  {
    hide Step, Panics, Leaks, ZeroEntry, Total, GrowthFrames, LostAt;
    NeverPanics(run[0], LOSING[0]);
    Taken(run, LOSING, oks, dones, |oks|, 0);
    SpawnFirst(11, oks[0], dones[0], run[1]);
    FirstFits(run[1], LOSING[1]);
    Taken(run, LOSING, oks, dones, |oks|, 1);
    GrowFirst(run[1], LOSING[1], oks[1], dones[1], run[2]);
    NeverPanics(run[2], LOSING[2]);
    Taken(run, LOSING, oks, dones, |oks|, 2);
    ForkNext(run[2], oks[2], dones[2], run[3]);
    LostIn(run[2], LOSING[2], oks[2], dones[2], run[3]);
    NothingLost(11);
  }

  lemma LostIn(s: World, cmd: Cmd, ok: bool, done: nat, s': World)
    requires Leaks(s, cmd) && Step(s, cmd, ok, done, s')
    ensures Total(s'.loose) == Total(s.loose) + 1
  {
    hide LostAt, Missing, Top, Forked, Total;
    LeakBumps(s, cmd, s'.loose);
  }

  lemma {:induction false} NothingLost(n: nat)
    ensures Total(seq(n, _ => 0)) == 0
  {
    if n > 0 {
      NothingLost(n - 1);
      assert seq(n, _ => 0)[..n - 1] == seq(n - 1, _ => 0);
    }
  }

  /** A run of TEXT_STORE from a boot with 16 frames, or with 11. */
  lemma TextRun(n: nat, oks: seq<bool>, dones: seq<nat>, run: seq<World>)
    requires |oks| <= 5 && Runs(run, TEXT_STORE[..|oks|], oks, dones) && run[0] == Booted(n) && (n == 16 || n == 11)
    requires |oks| < 5 ==> Panics(run[|oks|], TEXT_STORE[|oks|])
    ensures oks == [true, true, false, n == 16, true]
  {
    hide Step, Panics, Leaks, GrowthFrames, LostAt;
    NeverPanics(run[0], TEXT_STORE[0]);
    Taken(run, TEXT_STORE, oks, dones, |oks|, 0);
    SpawnFirst(n, oks[0], dones[0], run[1]);
    FirstFits(run[1], TEXT_STORE[1]);
    Taken(run, TEXT_STORE, oks, dones, |oks|, 1);
    GrowFirst(run[1], TEXT_STORE[1], oks[1], dones[1], run[2]);
    NeverPanics(run[2], TEXT_STORE[2]);
    Taken(run, TEXT_STORE, oks, dones, |oks|, 2);
    StoreNext(run[2], oks[2], dones[2], run[3]);
    NeverPanics(run[3], TEXT_STORE[3]);
    Taken(run, TEXT_STORE, oks, dones, |oks|, 3);
    ForkNext(run[3], oks[3], dones[3], run[4]);
    NeverPanics(run[4], TEXT_STORE[4]);
    Taken(run, TEXT_STORE, oks, dones, |oks|, 4);
    StoreNext(run[4], oks[4], dones[4], run[5]);
  }

  /** With 11 frames, a process with one page cannot be forked, and trying loses a reference for good. */
  method ForkLosesAFrame() returns (oks: seq<bool>, ghost dones: seq<nat>, ghost run: seq<World>)
    ensures Runs(run, LOSING, oks, dones) && run[0] == Booted(11) && oks == [true, true, false]
    ensures Leaks(run[2], LOSING[2]) && Total(run[3].loose) == 1
  {
    hide Memory.Valid, Memory.View, Sized, Runs, Leaks, Total, Panics;
    var s := new Processes.Boot(11);
    var panic;
    oks, dones, run, panic := s.Run(LOSING);
    LosingRun(oks, dones, run);
    assert LOSING[..3] == LOSING;
  }

  /** exec maps program text readable and executable; after a fork the process can write to it. */
  method TextBecomesWritable() returns (oks: seq<bool>, ghost dones: seq<nat>, ghost run: seq<World>)
    ensures Runs(run, TEXT_STORE, oks, dones) && run[0] == Booted(16) && oks == [true, true, false, true, true]
  {
    oks, dones, run := StoreForkStore(16);
  }

  /** And also after a fork that has failed. */
  method EvenIfForkFails() returns (oks: seq<bool>, ghost dones: seq<nat>, ghost run: seq<World>)
    ensures Runs(run, TEXT_STORE, oks, dones) && run[0] == Booted(11) && oks == [true, true, false, false, true]
  {
    oks, dones, run := StoreForkStore(11);
  }

  method StoreForkStore(n: nat) returns (oks: seq<bool>, ghost dones: seq<nat>, ghost run: seq<World>)
    requires n == 16 || n == 11
    ensures Runs(run, TEXT_STORE, oks, dones) && run[0] == Booted(n) && oks == [true, true, false, n == 16, true]
  {
    hide Memory.Valid, Memory.View, Sized, Runs, Panics;
    var s := new Processes.Boot(n);
    var panic;
    oks, dones, run, panic := s.Run(TEXT_STORE);
    TextRun(n, oks, dones, run);
    assert TEXT_STORE[..5] == TEXT_STORE;
  }
}
