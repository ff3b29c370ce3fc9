/**
Physical memory with reference counts (kernel/kalloc.c), page tables (kernel/vm.c) and the
copy-on-write fault (kernel/trap.c). Every method keeps the exact accounting of Valid:
a frame's count is its user mappings plus its table links plus its loose references.
*/
module CowMemory {
  import opened Sequences
  import opened Wrappers
  import opened PageRefs

  const MAXVPN := 512 * 512 * 256  // MAXVA / PGSIZE
  const TRAPFRAME_VPN := MAXVPN - 2  // every page table has the trapframe there, the trampoline above it
  const JUNK_ON_FREE: Byte := 1
  const JUNK_ON_ALLOC: Byte := 5

  function Filled(b: Byte): Page {
    seq(PGSIZE, _ => b)
  }

  /** The free list: freelist is the first frame, next[f] the one after f, -1 the end. */
  ghost predicate Chain(freelist: int, next: seq<int>, free: seq<Frame>)
    decreases |free|
  {
    if free == [] then freelist == -1
    else freelist == free[0] && free[0] < |next| && Chain(next[free[0]], next, free[1..])
  }

  /** The free list holds exactly the frames whose count is 0, once each. */
  ghost predicate FreeExactly(free: seq<Frame>, count: seq<int>) {
    && Distinct(free)
    && (forall f: Frame :: f in free <==> f < |count| && count[f] == 0)
  }

  lemma FreePop(free: seq<Frame>, count: seq<int>, n: int)
    requires FreeExactly(free, count) && free != [] && n != 0
    ensures free[0] < |count| && FreeExactly(free[1..], count[free[0] := n])
  {
    var rest := free[1..];
    assert free == [free[0]] + rest;
    assert free[0] in free;
    forall i | 0 <= i < |rest|
      ensures rest[i] == free[i + 1] && rest[i] != free[0]
    {
    }
    assert Distinct(rest);
    forall f: Frame
      ensures f in rest <==> f < |count| && count[free[0] := n][f] == 0
    {
      assert f in free <==> f == free[0] || f in rest;
    }
  }

  lemma FreePush(free: seq<Frame>, count: seq<int>, f: Frame)
    requires FreeExactly(free, count) && f < |count| && count[f] != 0
    ensures FreeExactly([f] + free, count[f := 0])
  {
  }

  lemma FreeKept(free: seq<Frame>, count: seq<int>, f: Frame)
    requires FreeExactly(free, count) && f < |count| && count[f] > 0
    ensures FreeExactly(free, count[f := count[f] + 1])
  {
  }

  lemma {:induction false} ChainFrame(freelist: int, next: seq<int>, free: seq<Frame>, f: Frame, n: int)
    requires Chain(freelist, next, free) && f < |next| && f !in free
    ensures Chain(freelist, next[f := n], free)
    decreases |free|
  {
    if free != [] {
      ChainFrame(next[free[0]], next, free[1..], f, n);
    }
  }

  /** A page of uvmalloc: readable, for the user, with the permissions asked for, and private. */
  predicate ZeroEntry(ptes: Ptes, k: Key, xw: bool, xx: bool) {
    k in ptes && ptes[k] == Pte(ptes[k].frame, true, xw, xx, true, false)
  }

  ghost predicate ZeroEntries(ptes: Ptes, p: Pid, lo: nat, hi: nat, xw: bool, xx: bool) {
    forall v: nat :: lo <= v < hi ==> ZeroEntry(ptes, Key(p, v), xw, xx)
  }

  /** PGROUNDUP(sz) / PGSIZE */
  function PageCount(sz: nat): (n: nat)
    ensures (n - 1) * PGSIZE < sz <= n * PGSIZE || sz == n == 0
  {
    (sz + PGSIZE - 1) / PGSIZE
  }

  ghost predicate SameFrames(ptes: Ptes, ptes': Ptes) {
    forall j :: j in ptes ==> j in ptes' && ptes'[j].frame == ptes[j].frame
  }

  /** m' is m after pages 0 up to n of p have been shared with c: both entries copy-on-write, all others as before. */
  ghost predicate Shared(m: Ptes, m': Ptes, p: Pid, c: Pid, n: nat) {
    && (forall k :: k in m ==>
         k in m' && m'[k] == if k.pid == p && k.vpn < n then m[k].(w := false, cow := true) else m[k])
    && (forall v: nat :: v < n ==>
         Key(p, v) in m && Key(c, v) in m' && m'[Key(c, v)] == m[Key(p, v)].(w := false, cow := true))
    && (forall k :: k in m' ==> k in m || (k.pid == c && k.vpn < n))
  }

  lemma SharedNone(m: Ptes, p: Pid, c: Pid)
    ensures Shared(m, m, p, c, 0)
  {
  }

  lemma SharedNext(m: Ptes, m': Ptes, p: Pid, c: Pid, n: nat)
    requires Shared(m, m', p, c, n) && p != c && (forall k :: k in m ==> k.pid != c) && Key(p, n) in m'
    ensures var pte := m'[Key(p, n)].(w := false, cow := true);
            Shared(m, m'[Key(p, n) := pte][Key(c, n) := pte], p, c, n + 1)
  {
    assert Key(p, n) in m;
    forall k | k in m && k.pid == p && k.vpn == n ensures k == Key(p, n) { }
  }

  // ---- how many frames a call needs ----

  /** The two tables above page v of process p. */
  function Above(p: Pid, v: nat): set<Table> {
    {Table(p, 0, v / 512), Table(p, 1, v / 512 / 512)}
  }

  /** The tables above pages lo up to hi of process p. */
  ghost function Wanted(p: Pid, lo: nat, hi: nat): set<Table> {
    if hi <= lo then {} else Wanted(p, lo, hi - 1) + Above(p, hi - 1)
  }

  /** How many tables have to be allocated for these pages, when those in have are there. */
  ghost function Missing(p: Pid, lo: nat, hi: nat, have: set<Table>): nat {
    |Wanted(p, lo, hi) - have|
  }

  lemma MissingOne(p: Pid, v: nat, have: set<Table>)
    ensures |Above(p, v) - have| ==
            (if Table(p, 1, v / 512 / 512) in have then 0 else 1) + if Table(p, 0, v / 512) in have then 0 else 1
  {
    var low, mid := Table(p, 0, v / 512), Table(p, 1, v / 512 / 512);
    assert Above(p, v) - have == (if mid in have then {} else {mid}) + if low in have then {} else {low};
  }

  /** One page more. */
  lemma MissingNext(p: Pid, lo: nat, hi: nat, have: set<Table>)
    requires lo <= hi
    ensures Missing(p, lo, hi + 1, have) == Missing(p, lo, hi, have) + |Above(p, hi) - (have + Wanted(p, lo, hi))|
  {
    var more := Above(p, hi) - (have + Wanted(p, lo, hi));
    assert Wanted(p, lo, hi + 1) - have == Wanted(p, lo, hi) - have + more;
    assert (Wanted(p, lo, hi) - have) * more == {};
  }

  lemma {:induction false} MissingMonotone(p: Pid, lo: nat, mid: nat, hi: nat, have: set<Table>)
    requires lo <= mid <= hi
    ensures Missing(p, lo, mid, have) <= Missing(p, lo, hi, have)
    decreases hi
  {
    if mid < hi {
      MissingNext(p, lo, hi - 1, have);
      MissingMonotone(p, lo, mid, hi - 1, have);
    }
  }

  /** What walk leaves behind when n frames do not suffice for the tables above page v. */
  function Upper(p: Pid, v: nat, n: int): set<Table> {
    if n == 1 then {Table(p, 1, v / 512 / 512)} else {}
  }

  lemma UpperNone(p: Pid, v: nat)
    ensures Upper(p, v, -1) == {}
  {
  }

  /** walk's two turns, with n frames to begin with. */
  lemma WalkKeys(p: Pid, v: nat, have: set<Table>, mid: set<Table>, now: set<Table>, n: nat)
    requires mid == have + {Table(p, 1, v / 512 / 512)}
    requires now == mid + {Table(p, 0, v / 512)}
    ensures now == have + Above(p, v)
    ensures n < |Above(p, v) - have| && (Table(p, 1, v / 512 / 512) in have || n > 0) ==> mid == have + Upper(p, v, n)
    ensures n < |Above(p, v) - have| && Table(p, 1, v / 512 / 512) !in have && n == 0 ==> Upper(p, v, n) == {}
  {
    MissingOne(p, v, have);
  }

  /** uvmalloc of pages lo up to hi, with n frames, has stopped at some page in between; now are the tables there. */
  ghost predicate StoppedAt(p: Pid, lo: nat, hi: nat, have: set<Table>, n: nat, now: set<Table>) {
    exists v: nat :: lo <= v < hi && LeftAt(p, lo, v, have, n, now)
  }

  ghost predicate LeftAt(p: Pid, lo: nat, v: nat, have: set<Table>, n: nat, now: set<Table>) {
    && GrowthFrames(p, lo, v, have) <= n < GrowthFrames(p, lo, v + 1, have)
    && now == have + Wanted(p, lo, v) + Upper(p, v, n - GrowthFrames(p, lo, v, have) - 1)
  }

  lemma Stops(p: Pid, lo: nat, hi: nat, v: nat, have: set<Table>, n: nat, now: set<Table>)
    requires lo <= v < hi && LeftAt(p, lo, v, have, n, now)
    ensures StoppedAt(p, lo, hi, have, n, now)
  {
  }

  /** m' is m with the pages of p that uvmcopy comes to, n frames being free, copy-on-write and unwritable. */
  ghost predicate Marked(m: Ptes, m': Ptes, p: Pid, c: Pid, have: set<Table>, n: nat) {
    && m'.Keys == m.Keys
    && forall k :: k in m ==>
         m'[k] == if k.pid == p && Missing(c, 0, k.vpn, have) <= n then m[k].(w := false, cow := true) else m[k]
  }

  /** The tables above page v did not fit, and its pages so far have been unmapped from the child. */
  lemma MarkedUpTo(m: Ptes, m1: Ptes, m2: Ptes, p: Pid, c: Pid, v: nat, have: set<Table>, n: nat)
    requires Shared(m, m1, p, c, v) && p != c && (forall k :: k in m ==> k.pid != c) && Key(p, v) in m1
    requires m2 == m1[Key(p, v) := m1[Key(p, v)].(w := false, cow := true)] - Pages(c, 0, v)
    requires LastMapped(c, v, have, n)
    ensures Marked(m, m2, p, c, have, n)
  {
    hide Missing;
    assert m2.Keys == m.Keys by {
      forall k: Key ensures k in m2 <==> k in m {
        if k in m1 && k.pid == c { assert k in m || k == Key(c, k.vpn); }
      }
    }
    forall k | k in m
      ensures m2[k] == if k.pid == p && Missing(c, 0, k.vpn, have) <= n then m[k].(w := false, cow := true) else m[k]
    {
      if k.vpn <= v { MissingMonotone(c, 0, k.vpn, v, have); } else { MissingMonotone(c, 0, v + 1, k.vpn, have); }
      assert k == Key(k.pid, k.vpn);
    }
  }

  /** m' is m after copyout to bytes a up to b of p: the copy-on-write pages on the way are private and writable. */
  ghost predicate MadePrivate(m: Ptes, m': Ptes, p: Pid, a: nat, b: nat) {
    && m'.Keys == m.Keys
    && forall k :: k in m ==>
         m'[k] == if k.pid == p && a / PGSIZE <= k.vpn && k.vpn * PGSIZE < b && a < b && m[k].cow
                  then m[k].(frame := m'[k].frame, w := true, cow := false) else m[k]
  }

  lemma NonePrivate(m: Ptes, p: Pid, a: nat)
    ensures MadePrivate(m, m, p, a, a)
  {
  }

  /** One page more, up to its end or the end of the copy. */
  lemma PrivateNext(m: Ptes, m1: Ptes, m2: Ptes, p: Pid, a: nat, b: nat, n: nat)
    requires MadePrivate(m, m1, p, a, b) && a <= b && 0 < n && b % PGSIZE + n <= PGSIZE
    requires a < b ==> b % PGSIZE == 0
    requires var k := Key(p, b / PGSIZE);
             k in m1 && if m1[k].cow then k in m2 && m2 == AfterFault(m1, k, m2[k].frame) else m2 == m1
    ensures MadePrivate(m, m2, p, a, b + n)
  {
    var k0 := Key(p, b / PGSIZE);
    forall k | k in m
      ensures m2[k] == if k.pid == p && a / PGSIZE <= k.vpn && k.vpn * PGSIZE < b + n && m[k].cow
                       then m[k].(frame := m2[k].frame, w := true, cow := false) else m[k]
    {
      PageOf(k.vpn, b, n);
      if k.pid == p && k.vpn == b / PGSIZE { assert k == k0; }
    }
  }

  lemma NextPage(b: nat, n: nat)
    ensures b % PGSIZE + n == PGSIZE ==> (b + n) % PGSIZE == 0
  {
    if b % PGSIZE + n == PGSIZE { assert b + n == (b / PGSIZE + 1) * PGSIZE; }
  }

  /** Bytes b to b + n are in the page of b, and no page begins among them but that one. */
  lemma PageOf(v: nat, b: nat, n: nat)
    requires 0 < n && b % PGSIZE + n <= PGSIZE
    ensures v * PGSIZE < b + n <==> v <= b / PGSIZE
    ensures b % PGSIZE == 0 ==> (v * PGSIZE < b <==> v < b / PGSIZE)
  {
    var q := b / PGSIZE;
    assert b == q * PGSIZE + b % PGSIZE;
  }

  /** The tables of a page table with nothing but the trampoline and trapframe pages. */
  function Top(p: Pid): set<Table> {
    {Table(p, 2, 0)} + Above(p, TRAPFRAME_VPN)
  }

  /** The trampoline and trapframe pages are under the same two tables. */
  lemma TopMissing(p: Pid, have: set<Table>)
    requires forall t :: t in have && t.Table? ==> t.pid != p
    ensures Above(p, MAXVPN - 1) == Above(p, MAXVPN - 2)
    ensures have + {Table(p, 2, 0)} + Above(p, MAXVPN - 1) == have + Top(p) == have + Top(p) + Above(p, MAXVPN - 2)
    ensures |Above(p, MAXVPN - 1) - (have + {Table(p, 2, 0)})| == 2 && |Above(p, MAXVPN - 2) - (have + Top(p))| == 0
  {
    MissingOne(p, MAXVPN - 1, have + {Table(p, 2, 0)});
    MissingOne(p, MAXVPN - 2, have + Top(p));
  }

  lemma NoneWanted(p: Pid, lo: nat, have: set<Table>)
    ensures Wanted(p, lo, lo) == {} && Missing(p, lo, lo, have) == 0
  {
  }

  lemma WantedNext(p: Pid, lo: nat, hi: nat)
    requires lo <= hi
    ensures Wanted(p, lo, hi + 1) == Wanted(p, lo, hi) + Above(p, hi)
  {
  }

  /** With n free frames, page v of c is the first for whose tables they do not suffice. */
  ghost predicate LastMapped(c: Pid, v: nat, have: set<Table>, n: nat) {
    Missing(c, 0, v, have) <= n < Missing(c, 0, v + 1, have)
  }

  lemma LastMappedHere(c: Pid, v: nat, have: set<Table>, n: nat)
    requires Missing(c, 0, v, have) <= n < Missing(c, 0, v + 1, have)
    ensures LastMapped(c, v, have, n)
  {
  }

  /** The frames uvmalloc takes for pages lo up to hi: those pages, and the tables above them. */
  ghost function GrowthFrames(p: Pid, lo: nat, hi: nat, have: set<Table>): nat {
    (if hi > lo then hi - lo else 0) + Missing(p, lo, hi, have)
  }

  /** What matters to uvmalloc: the pages users see, the entries, the tables, and how many frames are free. */
  datatype Snapshot = Snapshot(view: map<Key, Page>, ptes: Ptes, tables: Tables, free: nat)

  /** now is was with zero pages lo to v of p, and what they need, added. */
  ghost predicate AllocedTo(was: Snapshot, now: Snapshot, p: Pid, lo: nat, v: nat, xw: bool, xx: bool) {
    && Grown(was.view, now.view, p, lo, v) && Added(was.ptes, now.ptes, p, lo, v)
    && GrownFor(p, was.tables, now.tables) && now.tables.Keys == was.tables.Keys + Wanted(p, lo, v)
    && was.free == now.free + GrowthFrames(p, lo, v, was.tables.Keys)
    && ZeroEntries(now.ptes, p, lo, v, xw, xx)
  }

  lemma NoneAlloced(was: Snapshot, p: Pid, lo: nat, xw: bool, xx: bool)
    requires Grown(was.view, was.view, p, lo, lo) && Added(was.ptes, was.ptes, p, lo, lo)
    ensures AllocedTo(was, was, p, lo, lo, xw, xx)
  {
    hide Grown, Added, Wanted, Missing, GrownFor;
    NoneWanted(p, lo, was.tables.Keys);
    GrownForNone(p, was.tables);
  }

  lemma AllocedKeys(was: Snapshot, now: Snapshot, p: Pid, lo: nat, v: nat, xw: bool, xx: bool)
    requires AllocedTo(was, now, p, lo, v, xw, xx) && lo <= v && Key(p, v) !in was.ptes
    ensures Grown(was.view, now.view, p, lo, v) && Added(was.ptes, now.ptes, p, lo, v) && Key(p, v) !in now.ptes
    ensures GrownFor(p, was.tables, now.tables) && now.tables.Keys == was.tables.Keys + Wanted(p, lo, v)
    ensures was.free == now.free + GrowthFrames(p, lo, v, was.tables.Keys)
    ensures ZeroEntries(now.ptes, p, lo, v, xw, xx)
    ensures forall t :: t in was.tables ==> t in now.tables
  {
    hide Grown, Added, Wanted, Missing, ZeroEntries;
    AddedNext(was.ptes, now.ptes, p, lo, v, Pte(0, true, xw, xx, true, false));
  }

  lemma AllocedNext(was: Snapshot, now: Snapshot, next: Snapshot, p: Pid, lo: nat, v: nat, xw: bool, xx: bool)
    requires AllocedTo(was, now, p, lo, v, xw, xx) && lo <= v && Key(p, v) !in was.ptes && Key(p, v) !in was.view
    requires Key(p, v) in next.ptes && next.ptes == now.ptes[Key(p, v) := next.ptes[Key(p, v)]]
    requires ZeroEntry(next.ptes, Key(p, v), xw, xx) && next.view == now.view[Key(p, v) := ZeroPage()]
    requires GrownFor(p, now.tables, next.tables) && next.tables.Keys == now.tables.Keys + Above(p, v)
    requires now.free == next.free + 1 + |Above(p, v) - now.tables.Keys|
    ensures AllocedTo(was, next, p, lo, v + 1, xw, xx)
  {
    hide Grown, Added, Wanted, Missing, GrownFor, Above, GrowthFrames;
    GrownForOn(p, was.tables, now.tables, next.tables);
    CountNext(was.tables.Keys, now.tables.Keys, next.tables.Keys, was.free, now.free, next.free, p, lo, v);
    GrownNext(was.view, now.view, p, lo, v);
    AddedNext(was.ptes, now.ptes, p, lo, v, next.ptes[Key(p, v)]);
    forall u: nat | lo <= u < v + 1 ensures ZeroEntry(next.ptes, Key(p, u), xw, xx) {
      if u < v { assert ZeroEntry(now.ptes, Key(p, u), xw, xx); }
    }
  }

  lemma CountNext(was: set<Table>, now: set<Table>, next: set<Table>, n0: nat, n1: nat, n2: nat, p: Pid, lo: nat,
                  v: nat)
    requires lo <= v && now == was + Wanted(p, lo, v) && n0 == n1 + GrowthFrames(p, lo, v, was)
    requires next == now + Above(p, v) && n1 == n2 + 1 + |Above(p, v) - now|
    ensures next == was + Wanted(p, lo, v + 1) && n0 == n2 + GrowthFrames(p, lo, v + 1, was)
  {
    hide Wanted, Missing, Above;
    MissingNext(p, lo, v, was);
    WantedNext(p, lo, v);
  }

  /** Page v does not fit, so pages lo to top do not either. */
  lemma AllocedFails(was: Snapshot, now: Snapshot, p: Pid, lo: nat, v: nat, top: nat, xw: bool, xx: bool)
    requires AllocedTo(was, now, p, lo, v, xw, xx) && lo <= v < top && now.free < 1 + |Above(p, v) - now.tables.Keys|
    ensures was.free < GrowthFrames(p, lo, top, was.tables.Keys)
  {
    hide Grown, Added, Wanted, Missing, GrownFor, Above;
    MissingNext(p, lo, v, was.tables.Keys);
    MissingMonotone(p, lo, v + 1, top, was.tables.Keys);
  }

  lemma StopsHere(was: set<Table>, now: set<Table>, tables: set<Table>, n0: nat, n1: nat, p: Pid, lo: nat, v: nat)
    requires lo <= v && now == was + Wanted(p, lo, v) && n0 == n1 + GrowthFrames(p, lo, v, was)
    requires n1 < 1 + |Above(p, v) - now| && tables == now + Upper(p, v, n1 - 1)
    ensures LeftAt(p, lo, v, was, n0, tables)
  {
    hide Wanted, Missing, Above, Upper;
    MissingNext(p, lo, v, was);
  }

  lemma AllocedStops(was: Snapshot, now: Snapshot, tables: set<Table>, p: Pid, lo: nat, v: nat, hi: nat, xw: bool,
                     xx: bool)
    requires AllocedTo(was, now, p, lo, v, xw, xx) && lo <= v < hi && now.free < 1 + |Above(p, v) - now.tables.Keys|
    requires tables == now.tables.Keys + Upper(p, v, now.free - 1)
    ensures StoppedAt(p, lo, hi, was.tables.Keys, was.free, tables)
  {
    hide Grown, Added, Wanted, Missing, GrownFor, Above, Upper, ZeroEntries, StoppedAt;
    StopsHere(was.tables.Keys, now.tables.Keys, tables, was.free, now.free, p, lo, v);
    Stops(p, lo, hi, v, was.tables.Keys, was.free, tables);
  }

  lemma NothingLeft(was: Snapshot, now: Snapshot, p: Pid, lo: nat, v: nat, hi: nat, xw: bool, xx: bool)
    requires AllocedTo(was, now, p, lo, v, xw, xx) && lo <= v < hi && now.free == 0
    ensures StoppedAt(p, lo, hi, was.tables.Keys, was.free, now.tables.Keys)
  {
    hide AllocedTo, StoppedAt, Upper, Above;
    UpperNone(p, v);
    AllocedStops(was, now, now.tables.Keys, p, lo, v, hi, xw, xx);
  }

  /** uvmalloc has undone what it did, but for the tables. */
  ghost predicate GaveUp(was: Snapshot, now: Snapshot, p: Pid, lo: nat, hi: nat) {
    now.ptes == was.ptes && now.view == was.view && StoppedAt(p, lo, hi, was.tables.Keys, was.free, now.tables.Keys)
  }

  lemma GivenUp(was: Snapshot, now: Snapshot, p: Pid, lo: nat, hi: nat)
    requires now.ptes == was.ptes && now.view == was.view
    requires StoppedAt(p, lo, hi, was.tables.Keys, was.free, now.tables.Keys)
    ensures GaveUp(was, now, p, lo, hi)
  {
  }

  lemma GaveUpIs(was: Snapshot, now: Snapshot, p: Pid, lo: nat, hi: nat)
    requires GaveUp(was, now, p, lo, hi)
    ensures now.ptes == was.ptes && now.view == was.view
    ensures StoppedAt(p, lo, hi, was.tables.Keys, was.free, now.tables.Keys)
  {
    hide StoppedAt;
  }

  /** What uvmalloc returns; it panics at the trapframe page, which is mapped already. */
  datatype Growth = Grew(sz: nat) | NoMemory | Panic

  /** Whether a store to page k is let through, perhaps after a fault, when free frames are left. */
  predicate StoreAllowed(ptes: Ptes, k: Key, free: nat) {
    k in ptes && ptes[k].u && (ptes[k].w || (k.vpn < MAXVPN && ptes[k].cow && free > 0))
  }

  /** The entries after a copy-on-write fault at k has moved the page to frame f. */
  function AfterFault(ptes: Ptes, k: Key, f: Frame): Ptes {
    if k in ptes then ptes[k := ptes[k].(frame := f, w := true, cow := false)] else ptes
  }

  /** Only page-table pages of process c have been added. */
  ghost predicate GrownFor(c: Pid, tables: Tables, tables': Tables) {
    && (forall t :: t in tables ==> t in tables' && tables'[t] == tables[t])
    && (forall t :: t in tables' && t !in tables ==> t.Table? && t.pid == c)
  }

  /** uvmcopy of n pages has lost its reference to the frame of the first page whose tables did not fit. */
  ghost predicate CopyLost(ptes: Ptes, p: Pid, c: Pid, n: nat, have: set<Table>, free: nat, loose: seq<nat>,
                           loose': seq<nat>) {
    exists v: nat :: v < n && LastMapped(c, v, have, free) && LostFrameOf(ptes, Key(p, v), loose, loose')
  }

  ghost predicate LostFrameOf(ptes: Ptes, k: Key, loose: seq<nat>, loose': seq<nat>) {
    k in ptes && LostOne(loose, loose', ptes[k].frame)
  }

  lemma GrownForNone(c: Pid, tables: Tables)
    ensures GrownFor(c, tables, tables)
  {
  }

  lemma GrownForOn(c: Pid, tables: Tables, tables1: Tables, tables2: Tables)
    requires GrownFor(c, tables, tables1) && GrownFor(c, tables1, tables2)
    ensures GrownFor(c, tables, tables2) && tables.Keys <= tables1.Keys <= tables2.Keys
  {
  }

  ghost predicate LostOne(loose: seq<nat>, loose': seq<nat>, f: Frame) {
    f < |loose| && loose' == loose[f := loose[f] + 1]
  }

  /** The table pages above a page, or above another table page, exist. */
  ghost predicate Rooted(ptes: Ptes, tables: Tables) {
    && (forall k :: k in ptes ==> Table(k.pid, 0, k.vpn / 512) in tables)
    && (forall t :: t in tables && t.Table? && t.level < 2 ==> Table(t.pid, t.level + 1, t.index / 512) in tables)
    && (forall t :: t in tables && t.Table? ==> t.level <= 2 && (t.level == 2 ==> t.index == 0))
  }

  /** One more leaf entry, in a page table that is there. */
  lemma MapPlaced(ptes: Ptes, tables: Tables, frames: nat, k: Key, pte: Pte)
    requires InRange(ptes, tables, frames) && Sharing(ptes) && Separate(ptes, tables) && Rooted(ptes, tables)
    requires k !in ptes && pte.frame < frames && Table(k.pid, 0, k.vpn / 512) in tables
    requires forall t :: t in tables ==> tables[t] != pte.frame
    requires forall j :: j in ptes && ptes[j].frame == pte.frame ==> ptes[j].cow && !ptes[j].w && pte.cow && !pte.w
    ensures InRange(ptes[k := pte], tables, frames) && Sharing(ptes[k := pte])
    ensures Separate(ptes[k := pte], tables) && Rooted(ptes[k := pte], tables)
  {
  }

  /** One more page-table page, below one that is there. */
  lemma LinkPlaced(ptes: Ptes, tables: Tables, frames: nat, t: Table, f: Frame)
    requires InRange(ptes, tables, frames) && Separate(ptes, tables) && Rooted(ptes, tables)
    requires t !in tables && f < frames && (forall k :: k in ptes ==> ptes[k].frame != f)
    requires forall t' :: t' in tables ==> tables[t'] != f
    requires t.Table? ==> t.level <= 2
    requires t.Table? ==> if t.level == 2 then t.index == 0 else Table(t.pid, t.level + 1, t.index / 512) in tables
    ensures InRange(ptes, tables[t := f], frames) && Separate(ptes, tables[t := f]) && Rooted(ptes, tables[t := f])
  {
  }

  /** One store that points an entry at another frame, which no table is in. */
  lemma RemapPlaced(ptes: Ptes, tables: Tables, k: Key, pte: Pte)
    requires Separate(ptes, tables) && Rooted(ptes, tables) && k in ptes
    requires forall t :: t in tables ==> tables[t] != pte.frame
    ensures Separate(ptes[k := pte], tables) && Rooted(ptes[k := pte], tables)
  {
  }

  /** A table with nothing below it may go. */
  lemma TableDropped(ptes: Ptes, tables: Tables, t: Table)
    requires Separate(ptes, tables) && Rooted(ptes, tables) && t in tables
    requires t.Table? && t.level == 0 ==> forall k :: k in ptes && k.pid == t.pid ==> k.vpn / 512 != t.index
    requires t.Table? && t.level > 0 ==>
               forall t' :: t' in tables && t'.Table? && t'.pid == t.pid && t'.level + 1 == t.level ==>
                   t'.index / 512 != t.index
    ensures Separate(ptes, tables - {t}) && Rooted(ptes, tables - {t})
  {
  }

  /** The number of the level-`level` table page above t (or t itself). */
  function Ancestor(t: Table, level: nat): nat
    requires t.Table? && t.level <= level <= 2
  {
    if t.level == level then t.index
    else if t.level + 1 == level then t.index / 512
    else t.index / 512 / 512
  }

  predicate Below(t: Table, p: Pid, level: nat, index: nat)
    requires level <= 2
  {
    t.Table? && t.pid == p && t.level <= level && Ancestor(t, level) == index
  }

  /** Every table page at or below the given one is gone, and no other. */
  ghost predicate SubtreeFreed(tables: Tables, tables': Tables, p: Pid, level: nat, index: nat)
    requires level <= 2
  {
    && (forall t :: t in tables' ==> t in tables && tables'[t] == tables[t])
    && (forall t :: t in tables ==> (t in tables' <==> !Below(t, p, level, index)))
  }

  /** Every table page strictly below the given one, through its first n entries, is gone, and no other. */
  ghost predicate ChildrenFreed(tables: Tables, tables': Tables, p: Pid, level: nat, index: nat, n: nat)
    requires level <= 2
  {
    && (forall t :: t in tables' ==> t in tables && tables'[t] == tables[t])
    && (forall t :: t in tables ==>
          (t in tables' <==>
              !(Below(t, p, level, index) && t.level < level && Ancestor(t, level - 1) < index * 512 + n)))
  }

  lemma NoneFreed(tables: Tables, p: Pid, level: nat, index: nat)
    requires level <= 2
    ensures ChildrenFreed(tables, tables, p, level, index, 0)
  {
    forall t | t in tables && Below(t, p, level, index) && t.level < level
      ensures Ancestor(t, level - 1) >= index * 512
    {
      assert Ancestor(t, level) == Ancestor(t, level - 1) / 512;
    }
  }

  /** With no table page at a place there is none below it. */
  lemma AbsentSubtree(tables: Tables, p: Pid, level: nat, index: nat)
    requires level <= 2 && Table(p, level, index) !in tables
    requires forall t :: t in tables && t.Table? && t.level < 2 ==> Table(t.pid, t.level + 1, t.index / 512) in tables
    ensures SubtreeFreed(tables, tables, p, level, index)
  {
  }

  /** All of a process's page-table pages are below its root. */
  lemma BelowRoot(ptes: Ptes, tables: Tables, t: Table)
    requires Rooted(ptes, tables) && t in tables && t.Table?
    ensures t.level <= 2 && Below(t, t.pid, 2, 0) && Table(t.pid, 2, 0) in tables
  {
    if t.level < 2 {
      var up := Table(t.pid, t.level + 1, t.index / 512);
      assert up in tables;
      if up.level < 2 {
        assert Table(t.pid, 2, up.index / 512) in tables;
      }
    }
  }

  /** Tables have been added, all of them process p's. */
  ghost predicate SpaceAdded(p: Pid, tables: Tables, tables': Tables) {
    && (forall t :: t in tables ==> t in tables' && tables'[t] == tables[t])
    && (forall t :: t in tables' && t !in tables ==> t.pid == p)
  }

  /** Freeing the root's subtree undoes the building of a page table. */
  lemma PageTableUndone(ptes: Ptes, p: Pid, tables0: Tables, built: Tables, tables: Tables)
    requires Rooted(ptes, built) && SubtreeFreed(built, tables, p, 2, 0)
    requires SpaceAdded(p, tables0, built) && forall t :: t in built && t !in tables0 ==> t.Table?
    requires forall t :: t in tables0 && t.Table? ==> t.pid != p
    ensures tables == tables0
  {
    forall t | t in built && t !in tables0
      ensures t !in tables
    {
      BelowRoot(ptes, built, t);
    }
  }

  lemma PageTableGone(ptes: Ptes, p: Pid, built: Tables, tables: Tables)
    requires Rooted(ptes, built) && SubtreeFreed(built, tables, p, 2, 0)
    ensures forall t :: t in tables <==> t in built && !(t.Table? && t.pid == p)
  {
    forall t | t in built && t.Table? && t.pid == p
      ensures t !in tables
    {
      BelowRoot(ptes, built, t);
    }
  }

  lemma NextChildFreed(tables0: Tables, tables: Tables, tables': Tables, p: Pid, level: nat, index: nat, i: nat)
    requires 0 < level <= 2 && i < 512
    requires ChildrenFreed(tables0, tables, p, level, index, i)
    requires SubtreeFreed(tables, tables', p, level - 1, index * 512 + i)
    ensures ChildrenFreed(tables0, tables', p, level, index, i + 1)
  {
    forall t | t in tables0
      ensures t in tables' <==>
                !(Below(t, p, level, index) && t.level < level && Ancestor(t, level - 1) < index * 512 + i + 1)
    {
      if t.Table? && t.level < level {
        assert Ancestor(t, level) == Ancestor(t, level - 1) / 512;
        assert Ancestor(t, level - 1) == index * 512 + i ==> Ancestor(t, level) == index;
      }
    }
  }

  lemma AllChildrenFreed(tables0: Tables, tables: Tables, p: Pid, level: nat, index: nat)
    requires 0 < level <= 2 && ChildrenFreed(tables0, tables, p, level, index, 512)
    ensures forall t :: t in tables ==> !(t.Table? && t.pid == p && t.level + 1 == level && t.index / 512 == index)
  {
  }

  lemma RootStays(tables0: Tables, tables: Tables, p: Pid, level: nat, index: nat)
    requires level <= 2 && ChildrenFreed(tables0, tables, p, level, index, if level == 0 then 0 else 512)
    requires Table(p, level, index) in tables0
    ensures Table(p, level, index) in tables
  {
  }

  lemma SubtreeGone(tables0: Tables, before: Tables, tables: Tables, p: Pid, level: nat, index: nat)
    requires level <= 2 && ChildrenFreed(tables0, before, p, level, index, if level == 0 then 0 else 512)
    requires tables == before - {Table(p, level, index)}
    ensures SubtreeFreed(tables0, tables, p, level, index)
  {
    forall t | t in tables0 && Below(t, p, level, index) && t.level < level
      ensures Ancestor(t, level - 1) < index * 512 + 512
    {
      assert Ancestor(t, level) == Ancestor(t, level - 1) / 512;
    }
  }

  lemma NothingMapped(count: seq<int>)
    requires forall f :: 0 <= f < |count| ==> count[f] == 0
    ensures Counted(map[], map[], seq(|count|, _ => 0), count)
  {
    forall f: Frame
      ensures UserRefs(map[], f) == {} && TableRefs(map[], f) == {}
    {
    }
  }

  // ---- where all the frames are ----

  /** The frames that user entries name, or that the code, or nobody any more, holds a reference to. */
  ghost function Named(ptes: Ptes, loose: seq<nat>): (r: set<Frame>)
    ensures forall f: Frame :: f in r <==> f < |loose| && (loose[f] > 0 || Mapped(ptes, f))
  {
    set f: Frame | f < |loose| && (loose[f] > 0 || Mapped(ptes, f))
  }

  ghost predicate Mapped(ptes: Ptes, f: Frame) {
    exists k :: k in ptes && ptes[k].frame == f
  }

  ghost function FramesOf(tables: Tables): set<Frame> {
    set t | t in tables :: tables[t]
  }

  lemma {:induction false} TableCount(tables: Tables)
    requires forall t, t' :: t in tables && t' in tables && tables[t] == tables[t'] ==> t == t'
    ensures |FramesOf(tables)| == |tables.Keys|
    decreases |tables|
  {
    if tables == map[] {
      assert FramesOf(tables) == {};
    } else {
      var t :| t in tables;
      OneTableLess(tables, t);
      TableCount(tables - {t});
    }
  }

  lemma OneTableLess(tables: Tables, t: Table)
    requires t in tables && forall u, v :: u in tables && v in tables && tables[u] == tables[v] ==> u == v
    ensures var rest := tables - {t};
            && |tables.Keys| == |rest.Keys| + 1 && |FramesOf(tables)| == |FramesOf(rest)| + 1
            && forall u, v :: u in rest && v in rest && rest[u] == rest[v] ==> u == v
  {
    var rest := tables - {t};
    assert tables.Keys == rest.Keys + {t};
    assert FramesOf(tables) == FramesOf(rest) + {tables[t]};
    assert tables[t] !in FramesOf(rest);
  }

  function Elements(free: seq<Frame>): set<Frame> {
    set f | f in free
  }

  lemma {:induction false} DistinctCount(free: seq<Frame>)
    requires Distinct(free)
    ensures |Elements(free)| == |free|
  {
    if free != [] {
      var rest := free[1..];
      DistinctRest(free);
      DistinctCount(rest);
      ElementsRest(free);
      assert |Elements(rest) + {free[0]}| == |Elements(rest)| + 1;
    }
  }

  lemma DistinctRest(free: seq<Frame>)
    requires Distinct(free) && free != []
    ensures Distinct(free[1..]) && free[0] !in free[1..]
  {
    forall i | 0 <= i < |free| - 1 ensures free[1..][i] == free[i + 1] != free[0] { }
  }

  lemma ElementsRest(free: seq<Frame>)
    requires free != []
    ensures Elements(free) == Elements(free[1..]) + {free[0]}
  {
    assert free == [free[0]] + free[1..];
  }

  function Frames(n: nat): (r: set<Frame>)
    ensures |r| == n && forall f: Frame :: f in r <==> f < n
  {
    if n == 0 then {} else Frames(n - 1) + {n - 1}
  }

  /** Every frame is on the free list, holds a table, or is named, and only one of these. */
  lemma AllFrames(ptes: Ptes, tables: Tables, loose: seq<nat>, count: seq<int>, free: seq<Frame>)
    requires Counted(ptes, tables, loose, count) && FreeExactly(free, count)
    requires Separate(ptes, tables) && InRange(ptes, tables, |count|) && Apart(tables, loose)
    ensures |free| + |tables.Keys| + |Named(ptes, loose)| == |count|
  {
    hide Counted, Separate, FreeExactly, InRange, Apart, Named, FramesOf, Elements, Frames;
    var frees, used, named := Elements(free), FramesOf(tables), Named(ptes, loose);
    forall f: Frame
      ensures f in Frames(|count|) <==> f in frees || f in used || f in named
      ensures !(f in frees && f in used) && !(f in frees && f in named) && !(f in used && f in named)
    {
      WhereIs(ptes, tables, loose, count, free, f);
    }
    DistinctFree(free, count);
    Injective(ptes, tables);
    TableCount(tables);
    ThreeParts(Frames(|count|), frees, used, named);
  }

  lemma ThreeParts(all: set<Frame>, a: set<Frame>, b: set<Frame>, c: set<Frame>)
    requires forall f: Frame :: f in all <==> f in a || f in b || f in c
    requires forall f: Frame :: !(f in a && f in b) && !(f in a && f in c) && !(f in b && f in c)
    ensures |all| == |a| + |b| + |c|
  {
    assert a * b == {} && (a + b) * c == {};
    assert all == a + b + c;
  }

  lemma NotATable(ptes: Ptes, tables: Tables, k: Key)
    requires Separate(ptes, tables) && k in ptes
    ensures forall t :: t in tables ==> tables[t] != ptes[k].frame
  {
  }

  lemma Injective(ptes: Ptes, tables: Tables)
    requires Separate(ptes, tables)
    ensures forall t, t' :: t in tables && t' in tables && tables[t] == tables[t'] ==> t == t'
  {
  }

  lemma DistinctFree(free: seq<Frame>, count: seq<int>)
    requires FreeExactly(free, count)
    ensures |Elements(free)| == |free|
  {
    DistinctCount(free);
  }

  lemma WhereIs(ptes: Ptes, tables: Tables, loose: seq<nat>, count: seq<int>, free: seq<Frame>, f: Frame)
    requires Counted(ptes, tables, loose, count) && FreeExactly(free, count)
    requires Separate(ptes, tables) && InRange(ptes, tables, |count|) && Apart(tables, loose)
    ensures f in Frames(|count|) <==> f in Elements(free) || f in FramesOf(tables) || f in Named(ptes, loose)
    ensures f in FramesOf(tables) ==> f !in Named(ptes, loose)
    ensures f in Elements(free) ==> f !in FramesOf(tables) && f !in Named(ptes, loose)
  {
    if f < |count| {
      if count[f] == 0 { UnreferencedWhenZero(ptes, tables, loose, count, f); }
      if count[f] != 0 && loose[f] == 0 {
        if UserRefs(ptes, f) != {} {
          var k :| k in UserRefs(ptes, f);
          assert Mapped(ptes, f);
        } else {
          assert TableRefs(tables, f) != {};
          var t :| t in TableRefs(tables, f);
        }
      }
    }
  }

  /** Nobody but the tree holds a reference to a table. */
  ghost predicate Apart(tables: Tables, loose: seq<nat>) {
    forall t :: t in tables ==> tables[t] < |loose| && loose[tables[t]] == 0
  }

  class Memory {
    const frames: nat
    var count: seq<int>
    var next: seq<int>
    var freelist: int
    var data: seq<Page>
    var ptes: Ptes
    var tables: Tables

    ghost var free: seq<Frame>
    ghost var loose: seq<nat>

    ghost predicate Valid()
      reads this
    {
      Sound() && Apart(tables, loose)
    }

    ghost predicate Sound()
      reads this
    {
      && |count| == |next| == |data| == |loose| == frames
      && Chain(freelist, next, free) && FreeExactly(free, count)
      && Counted(ptes, tables, loose, count)
      && InRange(ptes, tables, frames) && Sharing(ptes) && Separate(ptes, tables) && Rooted(ptes, tables)
    }

    ghost function View(): map<Key, Page>
      reads this
      requires Valid()
    {
      Contents(ptes, data)
    }

    /** kinit: freerange gives every frame to kfree with its count set to 1. */
    constructor Kinit(n: nat)
      ensures Valid() && frames == n && ptes == map[] && tables == map[]
      ensures loose == seq(n, _ => 0) && |free| == n
    {
      frames := n;
      count, loose := seq(n, _ => 0), seq(n, _ => 0);
      next, data := seq(n, _ => -1), seq(n, _ => Filled(0));
      freelist, free := -1, [];
      ptes, tables := map[], map[];
      new;
      var f := 0;
      while f < n
        invariant 0 <= f <= n && |free| == f
        invariant |next| == |data| == n && count == loose == seq(n, _ => 0)
        invariant ptes == map[] && tables == map[]
        invariant Chain(freelist, next, free) && Distinct(free)
        invariant forall g: Frame :: g in free <==> g < f
      {
        count := count[f := 1];
        count := count[f := count[f] - 1];
        ChainFrame(freelist, next, free, f, freelist);
        UnmappedWrite(ptes, data, f, Filled(JUNK_ON_FREE));
        data := data[f := Filled(JUNK_ON_FREE)];
        next := next[f := freelist];
        freelist := f;
        ghost var before := free;
        free := [f] + free;
        assert free[1..] == before;
        assert count == loose;
        f := f + 1;
      }
      NothingMapped(count);
    }

    /** Frames neither appear nor vanish. */
    lemma Accounts()
      requires Valid()
      ensures |free| + |tables.Keys| + |Named(ptes, loose)| == frames == |loose|
    {
      AllFrames(ptes, tables, loose, count, free);
    }

    /** Nothing refers to the first free frame. */
    lemma FreeUnnamed()
      requires Valid()
      ensures free != [] ==> free[0] < |loose| && free[0] !in Named(ptes, loose)
    {
      if free != [] {
        assert free[0] in free;
        UnreferencedWhenZero(ptes, tables, loose, count, free[0]);
      }
    }

    lemma InView(k: Key)
      requires Valid()
      ensures k in View() <==> k in ptes
    {
    }

    lemma ViewKeys()
      requires Valid()
      ensures forall k :: k in View() <==> k in ptes
    {
    }

    lemma LooseFrame(f: Frame)
      requires Valid() && f < frames
      ensures |count| == |data| == |loose| == frames
      ensures loose[f] > 0 ==> count[f] > 0
    {
      LooseIsUsed(ptes, tables, loose, count);
    }

    lemma ViewAt(k: Key)
      requires Valid() && k in ptes
      ensures ptes[k].frame < |data| == frames && k in View() && View()[k] == data[ptes[k].frame]
    {
    }

    lemma PagesInView(p: Pid, lo: nat, hi: nat)
      requires Valid()
      ensures Pages(p, lo, hi) <= View().Keys <==> Pages(p, lo, hi) <= ptes.Keys
    {
    }

    // ---- kalloc.c ----

    method Kalloc() returns (pa: Option<Frame>)
      requires Valid()
      modifies this`count, this`freelist, this`data, this`free, this`loose
      ensures Valid() && View() == old(View())
      ensures KeepsUsed(old(count), old(data), count, data)
      ensures pa.None? <==> old(free) == []
      ensures pa.None? ==> loose == old(loose) && data == old(data) && free == old(free)
      ensures pa.Some? ==>
                && old(free) == [pa.value] + free && pa.value < frames
                && old(count)[pa.value] == 0 && old(loose)[pa.value] == 0 && loose == old(loose)[pa.value := 1]
                && data == old(data)[pa.value := Filled(JUNK_ON_ALLOC)]
                && (forall k :: k in ptes ==> ptes[k].frame != pa.value)
                && (forall t :: t in tables ==> tables[t] != pa.value)
    {
      hide Counted, Sharing, Separate, Rooted, Contents;
      if freelist == -1 {
        return None;
      }
      var r := freelist;
      freelist := next[r];
      assert r == free[0] && free == [r] + free[1..];
      FreePop(free, count, 1);
      UnreferencedWhenZero(ptes, tables, loose, count, r);
      AdjustCounted(ptes, tables, loose, count, r, 1);
      free := free[1..];
      UnmappedWrite(ptes, data, r, Filled(JUNK_ON_ALLOC));
      data := data[r := Filled(JUNK_ON_ALLOC)];
      count := count[r := 1];
      loose := loose[r := 1];
      pa := Some(r);
    }

    method SafeIncCount(f: Frame)
      requires Valid() && f < frames && count[f] > 0
      modifies this`count, this`loose
      ensures Sound() && ((forall t :: t in tables ==> tables[t] != f) ==> Valid() && View() == old(View()))
      ensures loose == old(loose)[f := old(loose)[f] + 1] && count == old(count)[f := old(count)[f] + 1]
    {
      hide Counted, Sharing, Separate, Rooted, InRange, Chain, FreeExactly;
      AdjustCounted(ptes, tables, loose, count, f, 1);
      FreeKept(free, count, f);
      count := count[f := count[f] + 1];
      loose := loose[f := loose[f] + 1];
    }

    method Kfree(f: Frame)
      requires Valid() && f < frames && loose[f] > 0
      modifies this`count, this`next, this`freelist, this`data, this`free, this`loose
      ensures Valid() && View() == old(View())
      ensures loose == old(loose)[f := old(loose)[f] - 1]
      ensures count == old(count)[f := old(count)[f] - 1]
      ensures free == if old(count)[f] == 1 then [f] + old(free) else old(free)
      ensures forall g: Frame :: g < frames && old(count)[g] > (if g == f then 1 else 0) ==> data[g] == old(data)[g]
    {
      hide Counted, Sharing, Separate, Rooted, Contents;
      LooseIsUsed(ptes, tables, loose, count);
      AdjustCounted(ptes, tables, loose, count, f, -1);
      count := count[f := count[f] - 1];
      loose := loose[f := loose[f] - 1];
      if count[f] > 0 {
        return;
      }
      FreePush(free, old(count), f);
      UnreferencedWhenZero(ptes, tables, loose, count, f);
      ChainFrame(freelist, next, free, f, freelist);
      UnmappedWrite(ptes, data, f, Filled(JUNK_ON_FREE));
      data := data[f := Filled(JUNK_ON_FREE)];
      next := next[f := freelist];
      freelist := f;
      free := [f] + free;
      assert free[1..] == old(free);
    }

    // ---- leaf and table entries ----

    lemma Sizes()
      requires Valid()
      ensures |count| == |next| == |data| == |loose| == frames
    {
    }

    /** memset of a page nobody has mapped. */
    method Memset(f: Frame, page: Page)
      requires Valid() && f < frames && forall k :: k in ptes ==> ptes[k].frame != f
      modifies this`data
      ensures Valid() && View() == old(View()) && data == old(data)[f := page]
    {
      hide Counted, Sharing, Separate, Rooted, Contents, Chain, FreeExactly;
      UnmappedWrite(ptes, data, f, page);
      data := data[f := page];
    }

    /** Stores a new valid leaf entry, which takes over a loose reference to the frame. */
    method AddLeaf(k: Key, pte: Pte)
      requires Valid() && k !in ptes && pte.frame < frames && loose[pte.frame] > 0
      requires Table(k.pid, 0, k.vpn / 512) in tables
      requires forall t :: t in tables ==> tables[t] != pte.frame
      requires forall j :: j in ptes && ptes[j].frame == pte.frame ==> ptes[j].cow && !ptes[j].w && pte.cow && !pte.w
      modifies this`ptes, this`loose
      ensures Valid() && ptes == old(ptes)[k := pte]
      ensures loose == old(loose)[pte.frame := old(loose)[pte.frame] - 1]
      ensures View() == old(View())[k := data[pte.frame]]
    {
      hide Counted, Sharing, Separate, Rooted, Contents, Chain, FreeExactly;
      AddContents(ptes, data, k, pte);
      MapCounted(ptes, tables, loose, count, k, pte);
      MapPlaced(ptes, tables, frames, k, pte);
      ptes := ptes[k := pte];
      loose := loose[pte.frame := loose[pte.frame] - 1];
    }

    /** Clears a leaf entry; the reference it made becomes loose. */
    method DropLeaf(k: Key)
      requires Valid() && k in ptes
      modifies this`ptes, this`loose
      ensures Valid() && ptes == old(ptes) - {k}
      ensures var f := old(ptes)[k].frame; loose == old(loose)[f := old(loose)[f] + 1]
      ensures View() == old(View()) - {k}
    {
      hide Counted, Contents, Chain, FreeExactly;
      DropContents(ptes, data, k);
      UnmapCounted(ptes, tables, loose, count, k);
      loose := loose[ptes[k].frame := loose[ptes[k].frame] + 1];
      ptes := ptes - {k};
    }

    /** Changes the flags of a leaf entry. */
    method SetFlags(k: Key, pte: Pte)
      requires Valid() && k in ptes && pte.frame == ptes[k].frame
      requires forall j :: j in ptes && j != k && ptes[j].frame == pte.frame ==> pte.cow && !pte.w
      modifies this`ptes
      ensures Valid() && ptes == old(ptes)[k := pte] && View() == old(View())
    {
      ReflagCounted(ptes, tables, loose, count, k, pte);
      FlagsContents(ptes, data, k, pte);
      FlagsSharing(ptes, k, pte);
      ptes := ptes[k := pte];
    }

    /** Links a fresh, zeroed page-table page. */
    method AddTable(t: Table, f: Frame)
      requires Valid() && t !in tables && f < frames && loose[f] == 1
      requires forall k :: k in ptes ==> ptes[k].frame != f
      requires forall t' :: t' in tables ==> tables[t'] != f
      requires t.Table? ==> t.level <= 2
      requires t.Table? ==> if t.level == 2 then t.index == 0 else Table(t.pid, t.level + 1, t.index / 512) in tables
      modifies this`tables, this`loose
      ensures Valid() && View() == old(View()) && tables == old(tables)[t := f]
      ensures loose == old(loose)[f := old(loose)[f] - 1]
    {
      hide Counted, Sharing, Separate, Rooted, Contents, Chain, FreeExactly;
      LinkCounted(ptes, tables, loose, count, t, f);
      LinkPlaced(ptes, tables, frames, t, f);
      tables := tables[t := f];
      loose := loose[f := loose[f] - 1];
    }

    /** kfree of a page-table page (or trapframe page) nothing depends on any more. */
    method FreeTable(t: Table)
      requires Valid() && t in tables
      requires t.Table? && t.level == 0 ==> forall k :: k in ptes && k.pid == t.pid ==> k.vpn / 512 != t.index
      requires t.Table? && t.level > 0 ==>
                 forall t' :: t' in tables && t'.Table? && t'.pid == t.pid && t'.level + 1 == t.level ==>
                     t'.index / 512 != t.index
      modifies this`count, this`next, this`freelist, this`data, this`free, this`loose, this`tables
      ensures Valid() && View() == old(View())
      ensures tables == old(tables) - {t} && loose == old(loose)
    {
      hide Counted, Sharing, Separate, Rooted, Contents, Chain, FreeExactly;
      var f := tables[t];
      Injective(ptes, tables);
      TableDropped(ptes, tables, t);
      UnlinkCounted(ptes, tables, loose, count, t);
      loose := loose[f := loose[f] + 1];
      tables := tables - {t};
      Kfree(f);
    }

    /** kalloc of a page-table page, memset to zero and linked; false if out of memory. */
    method NewTable(t: Table) returns (ok: bool)
      requires Valid() && t !in tables
      requires t.Table? ==> t.level <= 2
      requires t.Table? ==> if t.level == 2 then t.index == 0 else Table(t.pid, t.level + 1, t.index / 512) in tables
      modifies this`count, this`freelist, this`data, this`free, this`loose, this`tables
      ensures Valid() && View() == old(View()) && loose == old(loose)
      ensures KeepsUsed(old(count), old(data), count, data)
      ensures !ok ==> tables == old(tables)
      ensures ok ==> t in tables && tables == old(tables)[t := tables[t]] && old(count)[tables[t]] == 0
      ensures if ok then |free| == |old(free)| - 1 else free == old(free) == []
    {
      hide Valid, View;
      Sizes();
      var pa := Kalloc();
      match pa
      case None => ok := false;
      case Some(f) =>
        Memset(f, Filled(0));
        AddTable(t, f);
        ok := true;
    }

    /** One turn of walk's loop. */
    method EnsureTable(t: Table) returns (ok: bool)
      requires Valid()
      requires (t in tables || (t.Table? && t.level < 2 && Table(t.pid, t.level + 1, t.index / 512) in tables))
      modifies this`count, this`freelist, this`data, this`free, this`loose, this`tables
      ensures Valid() && View() == old(View()) && loose == old(loose)
      ensures KeepsUsed(old(count), old(data), count, data) && forall f :: 0 <= f < |old(count)| ==> old(count)[f] >= 0
      ensures ok <==> t in old(tables) || old(free) != []
      ensures !ok ==> tables == old(tables) && free == []
      ensures ok && t in old(tables) ==> tables == old(tables) && free == old(free)
      ensures ok && t !in old(tables) ==>
                && t in tables && tables == old(tables)[t := tables[t]] && |free| == |old(free)| - 1
                && tables[t] < |old(count)| && old(count)[tables[t]] == 0
    {
      hide Valid, View;
      TablesInRange();
      ok := true;
      if t !in tables {
        ok := NewTable(t);
        TablesInRange();
      }
    }

    /** walk with alloc: the two table pages above vpn exist on success; on failure the one that
        could be allocated stays. Other translations are untouched either way. */
    method WalkAlloc(p: Pid, vpn: nat) returns (ok: bool)
      requires Valid() && Table(p, 2, 0) in tables && vpn < MAXVPN
      modifies this`count, this`freelist, this`data, this`free, this`loose, this`tables
      ensures Valid() && View() == old(View()) && loose == old(loose)
      ensures KeepsUsed(old(count), old(data), count, data)
      ensures ok ==> Table(p, 0, vpn / 512) in tables
      ensures GrownFor(p, old(tables), tables)
      ensures forall t :: t in tables && t !in old(tables) ==>
                && (t == Table(p, 0, vpn / 512) || t == Table(p, 1, vpn / 512 / 512))
                && tables[t] < |old(count)| && old(count)[tables[t]] == 0
      ensures ok <==> |old(free)| >= |Above(p, vpn) - old(tables).Keys|
      ensures if ok then tables.Keys == old(tables).Keys + Above(p, vpn) else free == []
      ensures ok ==> |free| == |old(free)| - |Above(p, vpn) - old(tables).Keys|
      ensures !ok ==> tables.Keys == old(tables).Keys + Upper(p, vpn, |old(free)|)
    {
      hide Valid, View, KeepsUsed, Above, Upper;
      ghost var have, n := tables.Keys, |free|;
      var upper, low := Table(p, 1, vpn / 512 / 512), Table(p, 0, vpn / 512);
      MissingOne(p, vpn, have);
      WalkKeys(p, vpn, have, have + {upper}, have + {upper} + {low}, n);
      ok := EnsureTable(upper);
      if ok {
        ghost var count1, data1 := count, data;
        assert tables.Keys == have + {upper};
        ok := EnsureTable(low);
        KeepsUsedOn(old(count), old(data), count1, data1, count, data);
        if ok { assert tables.Keys == have + {upper} + {low}; }
      }
    }

    lemma TablesInRange()
      requires Valid()
      ensures |count| == |data| == frames && forall t :: t in tables ==> tables[t] < frames
      ensures forall f :: 0 <= f < frames ==> count[f] >= 0
    {
      LooseIsUsed(ptes, tables, loose, count);
    }

    /** mappages of one page, for a frame the caller holds a reference to. */
    method MapPage(k: Key, pte: Pte) returns (ok: bool)
      requires Valid() && Table(k.pid, 2, 0) in tables && k.vpn < MAXVPN
      requires k !in ptes && pte.frame < frames && loose[pte.frame] > 0
      requires forall t :: t in tables ==> tables[t] != pte.frame
      requires forall j :: j in ptes && ptes[j].frame == pte.frame ==> ptes[j].cow && !ptes[j].w && pte.cow && !pte.w
      modifies this`count, this`freelist, this`data, this`free, this`loose, this`tables, this`ptes
      ensures Valid()
      ensures ptes == if ok then old(ptes)[k := pte] else old(ptes)
      ensures loose == if ok then old(loose)[pte.frame := old(loose)[pte.frame] - 1] else old(loose)
      ensures View() == if ok then old(View())[k := old(data)[pte.frame]] else old(View())
      ensures GrownFor(k.pid, old(tables), tables)
      ensures ok <==> |old(free)| >= |Above(k.pid, k.vpn) - old(tables).Keys|
      ensures ok ==>
                tables.Keys == old(tables).Keys + Above(k.pid, k.vpn) &&
                    |free| == |old(free)| - |Above(k.pid, k.vpn) - old(tables).Keys|
      ensures !ok ==> tables.Keys == old(tables).Keys + Upper(k.pid, k.vpn, |old(free)|)
    {
      hide Valid, View;
      LooseFrame(pte.frame);
      ok := WalkAlloc(k.pid, k.vpn);
      assert data[pte.frame] == old(data)[pte.frame];
      forall t | t in tables
        ensures tables[t] != pte.frame
      {
        assert t in old(tables) || old(count)[tables[t]] == 0;
      }
      if ok {
        AddLeaf(k, pte);
      }
    }

    // ---- unmapping ----

    method UnmapPage(k: Key)
      requires Valid() && k in ptes
      modifies this`count, this`next, this`freelist, this`data, this`free, this`loose, this`ptes
      ensures Valid() && loose == old(loose) && ptes == old(ptes) - {k}
      ensures View() == old(View()) - {k}
    {
      hide Valid, View;
      ViewAt(k);
      LooseFrame(ptes[k].frame);
      var f := ptes[k].frame;
      DropLeaf(k);
      Kfree(f);
      assert loose == old(loose);
    }

    /** uvmunmap with do_free, of user pages that are all mapped. */
    method UvmUnmap(p: Pid, start: nat, npages: nat)
      requires Valid() && Pages(p, start, start + npages) <= ptes.Keys
      modifies this`count, this`next, this`freelist, this`data, this`free, this`loose, this`ptes
      ensures Valid() && loose == old(loose)
      ensures ptes == old(ptes) - Pages(p, start, start + npages)
      ensures View() == old(View()) - Pages(p, start, start + npages)
    {
      hide Valid, View;
      var a := start;
      assert Pages(p, start, start) == {};
      PagesInView(p, start, start + npages);
      while a < start + npages
        invariant start <= a <= start + npages
        invariant Valid() && loose == old(loose)
        invariant ptes == old(ptes) - Pages(p, start, a)
        invariant View() == old(View()) - Pages(p, start, a)
      {
        assert Key(p, a) in Pages(p, start, start + npages);
        DropPages(old(ptes), p, start, a);
        DropPages(old(View()), p, start, a);
        UnmapPage(Key(p, a));
        a := a + 1;
      }
    }

    // ---- the copy-on-write fault ----

    /** cow_page_fault. On success the page is private and writable; nobody's contents change. */
    method CowPageFault(p: Pid, vpn: nat) returns (ok: bool)
      requires Valid()
      modifies this`count, this`next, this`freelist, this`data, this`free, this`loose, this`ptes
      ensures Valid() && loose == old(loose) && View() == old(View())
      ensures ok <==>
                vpn < MAXVPN && Key(p, vpn) in old(ptes) && old(ptes)[Key(p, vpn)].u && old(ptes)[Key(p, vpn)].cow &&
                    old(free) != []
      ensures !ok ==> ptes == old(ptes) && free == old(free)
      ensures ok ==>
                && var pte := old(ptes)[Key(p, vpn)];
                   ptes == old(ptes)[Key(p, vpn) := pte.(frame := old(free)[0], w := true, cow := false)]
    {
      var k := Key(p, vpn);
      if vpn >= MAXVPN || k !in ptes || !ptes[k].u || !ptes[k].cow {
        return false;
      }
      var mem := Kalloc();
      if mem.None? {
        return false;
      }
      CopyToFresh(k, mem.value);
      ok := true;
    }

    /** The rest of cow_page_fault: memmove, the new entry, and kfree of the old page. */
    method CopyToFresh(k: Key, mem: Frame)
      requires Valid() && k in ptes && mem < frames && loose[mem] == 1
      requires forall j :: j in ptes ==> ptes[j].frame != mem
      requires forall t :: t in tables ==> tables[t] != mem
      modifies this`count, this`next, this`freelist, this`data, this`free, this`loose, this`ptes
      ensures Valid() && View() == old(View()) && loose == old(loose)[mem := 0]
      ensures ptes == old(ptes)[k := old(ptes)[k].(frame := mem, w := true, cow := false)]
    {
      hide Valid, View;
      ViewAt(k);
      LooseFrame(mem);
      var pte := ptes[k];
      MoveTo(pte.frame, mem);
      ReplaceFrame(k, pte.(frame := mem, w := true, cow := false));
      Kfree(pte.frame);
      assert loose == old(loose)[mem := 0];
    }

    /** memmove of a whole page into one nobody has mapped. */
    method MoveTo(source: Frame, target: Frame)
      requires Valid() && source < frames && target < frames
      requires forall j :: j in ptes ==> ptes[j].frame != target
      modifies this`data
      ensures Valid() && View() == old(View()) && |old(data)| == frames
      ensures data == old(data)[target := old(data)[source]]
    {
      UnmappedWrite(ptes, data, target, data[source]);
      data := data[target := data[source]];
    }

    /** Points a leaf entry at a fresh frame with the same contents. */
    method ReplaceFrame(k: Key, pte: Pte)
      requires Valid() && k in ptes && pte.frame < frames && loose[pte.frame] == 1
      requires data[pte.frame] == data[ptes[k].frame]
      requires forall j :: j in ptes ==> ptes[j].frame != pte.frame
      requires forall t :: t in tables ==> tables[t] != pte.frame
      modifies this`ptes, this`loose
      ensures Valid() && ptes == old(ptes)[k := pte] && View() == old(View())
      ensures var f := old(ptes)[k].frame;
              loose == old(loose)[pte.frame := 0][f := old(loose)[f] + 1]
    {
      hide Counted, Sharing, Separate, Rooted, Chain, FreeExactly, Contents;
      NotATable(ptes, tables, k);
      SameFrameContents(ptes, data, k, pte);
      RemapPlaced(ptes, tables, k, pte);
      RemapCounted(ptes, tables, loose, count, k, pte);
      FreshSharing(ptes, k, pte);
      ghost var f := ptes[k].frame;
      loose := loose[pte.frame := 0][f := loose[f] + 1];
      ptes := ptes[k := pte];
    }

    // ---- fork ----

    /** A page already marked copy-on-write may be mapped once more. */
    lemma MayShare(k: Key)
      requires Valid() && k in ptes && ptes[k].cow && !ptes[k].w
      ensures |count| == |loose| == |data| == frames
      ensures ptes[k].frame < frames && count[ptes[k].frame] > 0
      ensures forall t :: t in tables ==> tables[t] != ptes[k].frame
      ensures forall j :: j in ptes && ptes[j].frame == ptes[k].frame ==> ptes[j].cow && !ptes[j].w
    {
      MappedIsUsed(ptes, tables, loose, count, k);
    }

    /** One pass of uvmcopy's loop. On failure the page's extra reference is lost. */
    method SharePage(p: Pid, c: Pid, v: nat) returns (ok: bool)
      requires Valid() && p != c && v < MAXVPN && Table(c, 2, 0) in tables
      requires Key(p, v) in ptes && Key(c, v) !in ptes
      modifies this`count, this`freelist, this`data, this`free, this`loose, this`ptes, this`tables
      ensures Valid()
      ensures GrownFor(c, old(tables), tables)
      ensures var pte := old(ptes)[Key(p, v)].(w := false, cow := true);
              && ptes == (if ok then old(ptes)[Key(p, v) := pte][Key(c, v) := pte] else old(ptes)[Key(p, v) := pte])
              && (if ok then loose == old(loose) else LostOne(old(loose), loose, pte.frame))
      ensures View() == if ok then old(View())[Key(c, v) := old(View())[Key(p, v)]] else old(View())
      ensures ok <==> |old(free)| >= |Above(c, v) - old(tables).Keys|
      ensures ok ==>
                tables.Keys == old(tables).Keys + Above(c, v) &&
                    |free| == |old(free)| - |Above(c, v) - old(tables).Keys|
    {
      hide Valid, View, Sound;
      ViewAt(Key(p, v));
      var pte := ptes[Key(p, v)].(w := false, cow := true);
      SetFlags(Key(p, v), pte);
      MayShare(Key(p, v));
      SafeIncCount(pte.frame);
      ok := MapPage(Key(c, v), pte);
      if ok {
        assert loose == old(loose);
      }
    }

    lemma SharedFrames(m: Ptes, k: Key, c: Key, pte: Pte)
      requires k in m && m[k].frame == pte.frame && c !in m
      ensures SameFrames(m, m[k := pte]) && SameFrames(m, m[k := pte][c := pte])
    {
    }

    /** The error path of uvmcopy: the child's pages so far are unmapped again. */
    method AbandonCopy(p: Pid, c: Pid, v: nat, ghost m: map<Key, Page>)
      requires Valid() && Forked(m, View(), p, c, v) && forall k :: k in m ==> k.pid != c
      modifies this`count, this`next, this`freelist, this`data, this`free, this`loose, this`ptes
      ensures Valid() && View() == m && loose == old(loose) && ptes == old(ptes) - Pages(c, 0, v)
    {
      hide Valid, View, Forked;
      ForkUndone(m, View(), p, c, v);
      PagesInView(c, 0, v);
      UvmUnmap(c, 0, v);
    }

    lemma MappedPages(p: Pid, c: Pid, n: nat)
      requires Valid() && Pages(p, 0, n) <= ptes.Keys && forall k :: k in ptes ==> k.pid != c
      ensures forall v: nat :: v < n ==> Key(p, v) in ptes && Key(p, v) in View()
      ensures forall k :: k in View() ==> k.pid != c
      ensures Forked(View(), View(), p, c, 0) && SameFrames(ptes, ptes)
    {
    }

    /** One pass of uvmcopy's loop, or its error path. */
    method CopyPage(p: Pid, c: Pid, v: nat, ghost m: map<Key, Page>) returns (ok: bool)
      requires Valid() && p != c && v < MAXVPN && Table(c, 2, 0) in tables
      requires Key(p, v) in m && Forked(m, View(), p, c, v) && forall k :: k in m ==> k.pid != c
      modifies this`count, this`next, this`freelist, this`data, this`free, this`loose, this`ptes, this`tables
      ensures Valid() && GrownFor(c, old(tables), tables)
      ensures Key(p, v) in old(ptes)
      ensures ok ==> Forked(m, View(), p, c, v + 1) && loose == old(loose) && SameFrames(old(ptes), ptes)
      ensures ok ==> var pte := old(ptes)[Key(p, v)].(w := false, cow := true);
              ptes == old(ptes)[Key(p, v) := pte][Key(c, v) := pte]
      ensures ok <==> |old(free)| >= |Above(c, v) - old(tables).Keys|
      ensures ok ==>
                tables.Keys == old(tables).Keys + Above(c, v) &&
                    |free| == |old(free)| - |Above(c, v) - old(tables).Keys|
      ensures !ok ==> View() == m && LostOne(old(loose), loose, old(ptes)[Key(p, v)].frame)
      ensures !ok ==> var pte := old(ptes)[Key(p, v)].(w := false, cow := true);
              ptes == old(ptes)[Key(p, v) := pte] - Pages(c, 0, v)
    {
      hide Valid, View, Forked;
      ForkedNext(m, View(), p, c, v);
      InView(Key(p, v));
      InView(Key(c, v));
      ghost var before := ptes;
      ok := SharePage(p, c, v);
      SharedFrames(before, Key(p, v), Key(c, v), before[Key(p, v)].(w := false, cow := true));
      if !ok {
        AbandonCopy(p, c, v, m);
      }
    }

    /**
    uvmcopy. The child sees copies of the parent's pages and nobody else sees any change. If a table page cannot be
    allocated the child gets nothing and one reference is lost; the parent's pages up to there stay copy-on-write.
    */
    method UvmCopy(p: Pid, c: Pid, sz: nat) returns (ok: bool)
      requires Valid() && p != c && sz <= MAXVPN * PGSIZE && Table(c, 2, 0) in tables
      requires Pages(p, 0, PageCount(sz)) <= ptes.Keys && forall k :: k in ptes ==> k.pid != c
      modifies this`count, this`next, this`freelist, this`data, this`free, this`loose, this`ptes, this`tables
      ensures Valid() && GrownFor(c, old(tables), tables)
      ensures ok ==> Forked(old(View()), View(), p, c, PageCount(sz)) && loose == old(loose)
      ensures !ok ==> View() == old(View())
      ensures !ok ==> CopyLost(old(ptes), p, c, PageCount(sz), old(tables).Keys, |old(free)|, old(loose), loose)
      ensures !ok ==> Marked(old(ptes), ptes, p, c, old(tables).Keys, |old(free)|)
      ensures ok ==>
                Shared(old(ptes), ptes, p, c, PageCount(sz)) &&
                    tables.Keys == old(tables).Keys + Wanted(c, 0, PageCount(sz))
      ensures ok <==> |old(free)| >= Missing(c, 0, PageCount(sz), old(tables).Keys)
      ensures ok ==> |free| == |old(free)| - Missing(c, 0, PageCount(sz), old(tables).Keys)
    {
      hide Valid, View, Pages, Forked, Shared, Wanted, Missing, LastMapped, GrownFor, Above, Marked;
      ghost var m := View();
      MappedPages(p, c, PageCount(sz));
      SharedNone(ptes, p, c);
      ghost var have := tables.Keys;
      NoneWanted(c, 0, have);
      GrownForNone(c, tables);
      var v: nat := 0;
      while v * PGSIZE < sz
        invariant 0 <= v <= PageCount(sz)
        invariant Valid() && loose == old(loose) && GrownFor(c, old(tables), tables)
        invariant Forked(m, View(), p, c, v) && SameFrames(old(ptes), ptes)
        invariant Shared(old(ptes), ptes, p, c, v)
        invariant tables.Keys == have + Wanted(c, 0, v) && |old(free)| == |free| + Missing(c, 0, v, have)
        decreases PageCount(sz) - v
      {
        ghost var before, tables1 := ptes, tables;
        MissingNext(c, 0, v, have);
        MissingMonotone(c, 0, v + 1, PageCount(sz), have);
        WantedNext(c, 0, v);
        ok := CopyPage(p, c, v, m);
        if !ok {
          GrownForOn(c, old(tables), tables1, tables);
          LastMappedHere(c, v, have, |old(free)|);
          MarkedUpTo(old(ptes), before, ptes, p, c, v, have, |old(free)|);
          assert LostOne(old(loose), loose, old(ptes)[Key(p, v)].frame);
          return;
        }
        GrownForOn(c, old(tables), tables1, tables);
        SharedNext(old(ptes), before, p, c, v);
        v := v + 1;
      }
      ok := true;
    }

    // ---- growing and shrinking ----

    /** kalloc, memset and mappages of one page of uvmalloc; false if either allocation fails. */
    method AddZeroPage(k: Key, xw: bool, xx: bool) returns (ok: bool)
      requires Valid() && Table(k.pid, 2, 0) in tables && k.vpn < MAXVPN && k !in ptes
      modifies this`count, this`next, this`freelist, this`data, this`free, this`loose, this`ptes, this`tables
      ensures Valid() && loose == old(loose) && GrownFor(k.pid, old(tables), tables)
      ensures ok ==>
                k in ptes && ptes == old(ptes)[k := ptes[k]] && ptes[k] == Pte(ptes[k].frame, true, xw, xx, true, false)
      ensures ok <==> |old(free)| >= 1 + |Above(k.pid, k.vpn) - old(tables).Keys|
      ensures ok ==> |free| == |old(free)| - 1 - |Above(k.pid, k.vpn) - old(tables).Keys|
      ensures ok ==> tables.Keys == old(tables).Keys + Above(k.pid, k.vpn)
      ensures ok ==> View() == old(View())[k := ZeroPage()]
      ensures !ok ==> ptes == old(ptes) && View() == old(View())
      ensures !ok ==> tables.Keys == old(tables).Keys + Upper(k.pid, k.vpn, |old(free)| - 1)
    {
      hide Valid, View;
      Sizes();
      var mem := Kalloc();
      if mem.None? {
        return false;
      }
      Memset(mem.value, ZeroPage());
      ok := MapOrFree(k, Pte(mem.value, true, xw, xx, true, false));
    }

    method MapOrFree(k: Key, pte: Pte) returns (ok: bool)
      requires Valid() && Table(k.pid, 2, 0) in tables && k.vpn < MAXVPN && k !in ptes
      requires pte.frame < frames && loose[pte.frame] == 1
      requires forall t :: t in tables ==> tables[t] != pte.frame
      requires forall j :: j in ptes ==> ptes[j].frame != pte.frame
      modifies this`count, this`next, this`freelist, this`data, this`free, this`loose, this`ptes, this`tables
      ensures Valid() && loose == old(loose)[pte.frame := 0] && GrownFor(k.pid, old(tables), tables)
      ensures ptes == if ok then old(ptes)[k := pte] else old(ptes)
      ensures View() == if ok then old(View())[k := old(data)[pte.frame]] else old(View())
      ensures ok <==> |old(free)| >= |Above(k.pid, k.vpn) - old(tables).Keys|
      ensures ok ==> tables.Keys == old(tables).Keys + Above(k.pid, k.vpn)
      ensures ok ==> |free| == |old(free)| - |Above(k.pid, k.vpn) - old(tables).Keys|
      ensures !ok ==> tables.Keys == old(tables).Keys + Upper(k.pid, k.vpn, |old(free)|)
    {
      hide Valid, View;
      ok := MapPage(k, pte);
      if !ok {
        Kfree(pte.frame);
      }
    }

    /** Nothing of process p is mapped from lo up to hi, so nothing of it is seen there. */
    lemma Unmapped(p: Pid, lo: nat, hi: nat)
      requires Valid() && forall v: nat :: lo <= v < hi ==> Key(p, v) !in ptes
      ensures forall v: nat :: lo <= v < hi ==> Key(p, v) !in View()
      ensures Grown(View(), View(), p, lo, lo) && Added(ptes, ptes, p, lo, lo)
    {
    }

    /** uvmdealloc on the error path of uvmalloc. */
    method UndoAlloc(p: Pid, lo: nat, v: nat, ghost m: map<Key, Page>, ghost entries: Ptes)
      requires Valid() && lo <= v && Grown(m, View(), p, lo, v) && Added(entries, ptes, p, lo, v)
      requires forall u: nat :: lo <= u < v ==> Key(p, u) !in m && Key(p, u) !in entries
      modifies this`count, this`next, this`freelist, this`data, this`free, this`loose, this`ptes
      ensures Valid() && loose == old(loose) && ptes == entries && View() == m
    {
      hide Valid, View;
      AddedUndone(m, View(), p, lo, v);
      AddedUndone(entries, ptes, p, lo, v);
      UvmUnmap(p, lo, v - lo);
    }

    /**
    uvmalloc; NoMemory is the return value 0, after which the leaf entries are as they were. It comes
    to a panic just when memory lasts until the trapframe page.
    */
    method UvmAlloc(p: Pid, oldsz: nat, newsz: nat, xw: bool, xx: bool) returns (r: Growth)
      requires Valid() && Table(p, 2, 0) in tables && PageCount(oldsz) <= TRAPFRAME_VPN
      requires forall v: nat :: v >= PageCount(oldsz) ==> Key(p, v) !in ptes
      modifies this`count, this`next, this`freelist, this`data, this`free, this`loose, this`ptes, this`tables
      ensures Valid() && GrownFor(p, old(tables), tables) && (!r.Panic? ==> loose == old(loose))
      ensures newsz < oldsz ==> r == Grew(oldsz) && ptes == old(ptes) && View() == old(View()) && free == old(free)
      ensures newsz >= oldsz ==>
        var lo, hi := PageCount(oldsz), PageCount(newsz);
        var need := GrowthFrames(p, lo, if hi <= TRAPFRAME_VPN then hi else TRAPFRAME_VPN, old(tables).Keys);
        && (r.Grew? <==> hi <= TRAPFRAME_VPN && |old(free)| >= need)
        && (r.Panic? <==> hi > TRAPFRAME_VPN && |old(free)| > need)
        && (r.NoMemory? ==>
              && ptes == old(ptes) && View() == old(View())
              && StoppedAt(p, lo, hi, old(tables).Keys, |old(free)|, tables.Keys))
        && (r.Grew? ==>
              && r.sz == newsz && |free| == |old(free)| - need && tables.Keys == old(tables).Keys + Wanted(p, lo, hi)
              && Grown(old(View()), View(), p, lo, hi) && Added(old(ptes), ptes, p, lo, hi)
              && ZeroEntries(ptes, p, lo, hi, xw, xx))
    {
      hide Valid, View, Grown, Added, AllocedTo, GrownFor, GaveUp, GrowthFrames, ZeroEntries, StoppedAt, Wanted;
      if newsz < oldsz {
        GrownForNone(p, tables);
        return Grew(oldsz);
      }
      var lo := PageCount(oldsz);
      ghost var was, hi := Shot(), PageCount(newsz);
      Unmapped(p, lo, hi);
      NoneAlloced(was, p, lo, xw, xx);
      var v: nat := lo;
      while v * PGSIZE < newsz
        invariant lo <= v <= hi && v <= TRAPFRAME_VPN
        invariant Valid() && loose == old(loose) && AllocedTo(was, Shot(), p, lo, v, xw, xx)
        decreases hi - v
      {
        if v == TRAPFRAME_VPN {
          r := ReachTrapframe(p, lo, hi, was, xw, xx);
          if r.NoMemory? { GaveUpIs(was, Shot(), p, lo, hi); }
          return;
        }
        var ok := AddNext(p, lo, v, hi, was, xw, xx);
        if !ok {
          GaveUpIs(was, Shot(), p, lo, hi);
          return NoMemory;
        }
        v := v + 1;
      }
      AllocedKeys(was, Shot(), p, lo, v, xw, xx);
      r := Grew(newsz);
    }

    ghost function Shot(): Snapshot
      reads this
      requires Valid()
    {
      Snapshot(View(), ptes, tables, |free|)
    }

    lemma ShotIs()
      requires Valid()
      ensures Shot() == Snapshot(View(), ptes, tables, |free|)
    {
    }

    /** uvmalloc comes to the trapframe page. */
    method ReachTrapframe(p: Pid, lo: nat, ghost hi: nat, ghost was: Snapshot, xw: bool, xx: bool)
      returns (r: Growth)
      requires Valid() && lo <= TRAPFRAME_VPN < hi && AllocedTo(was, Shot(), p, lo, TRAPFRAME_VPN, xw, xx)
      requires forall v: nat :: lo <= v < hi ==> Key(p, v) !in was.ptes && Key(p, v) !in was.view
      modifies this`count, this`next, this`freelist, this`data, this`free, this`loose, this`ptes
      ensures Valid() && (r.Panic? || r.NoMemory?)
      ensures GrownFor(p, was.tables, tables)
      ensures r.Panic? <==> was.free > GrowthFrames(p, lo, TRAPFRAME_VPN, was.tables.Keys)
      ensures r.NoMemory? ==> loose == old(loose) && GaveUp(was, Shot(), p, lo, hi)
    {
      hide Valid, View, Shot, Grown, Added, AllocedTo, GrownFor, GaveUp, GrowthFrames, ZeroEntries, StoppedAt, Wanted,
           Upper;
      ShotIs();
      ghost var now := Shot();
      AllocedKeys(was, now, p, lo, TRAPFRAME_VPN, xw, xx);
      var mem := Kalloc();
      if mem.Some? { return Panic; }
      NothingLeft(was, now, p, lo, TRAPFRAME_VPN, hi, xw, xx);
      UndoAlloc(p, lo, TRAPFRAME_VPN, was.view, was.ptes);
      ShotIs();
      GivenUp(was, Shot(), p, lo, hi);
      r := NoMemory;
    }

    /** One pass of uvmalloc's loop, or its error path. */
    method AddNext(p: Pid, lo: nat, v: nat, ghost hi: nat, ghost was: Snapshot, xw: bool, xx: bool)
      returns (ok: bool)
      requires Valid() && lo <= v < hi && v < TRAPFRAME_VPN && AllocedTo(was, Shot(), p, lo, v, xw, xx)
      requires forall v: nat :: lo <= v < hi ==> Key(p, v) !in was.ptes && Key(p, v) !in was.view
      requires Table(p, 2, 0) in was.tables
      modifies this`count, this`next, this`freelist, this`data, this`free, this`loose, this`ptes, this`tables
      ensures Valid() && loose == old(loose)
      ensures ok ==> AllocedTo(was, Shot(), p, lo, v + 1, xw, xx)
      ensures !ok ==> GrownFor(p, was.tables, tables) && GaveUp(was, Shot(), p, lo, hi)
      ensures !ok ==> forall top: nat :: v < top ==> was.free < GrowthFrames(p, lo, top, was.tables.Keys)
    {
      hide Valid, View, Shot, Grown, Added, AllocedTo, GrownFor, GaveUp, GrowthFrames, ZeroEntries, StoppedAt, Wanted,
           Above, Upper;
      ShotIs();
      ghost var before := Shot();
      AllocedKeys(was, before, p, lo, v, xw, xx);
      ok := AddZeroPage(Key(p, v), xw, xx);
      ShotIs();
      if ok {
        AllocedNext(was, before, Shot(), p, lo, v, xw, xx);
      } else {
        forall top: nat | v < top ensures was.free < GrowthFrames(p, lo, top, was.tables.Keys) {
          AllocedFails(was, before, p, lo, v, top, xw, xx);
        }
        AllocedStops(was, before, tables.Keys, p, lo, v, hi, xw, xx);
        GrownForOn(p, was.tables, before.tables, tables);
        UndoAlloc(p, lo, v, was.view, was.ptes);
        ShotIs();
        GivenUp(was, Shot(), p, lo, hi);
      }
    }

    /** uvmdealloc. */
    method UvmDealloc(p: Pid, oldsz: nat, newsz: nat) returns (r: nat)
      requires Valid() && Pages(p, PageCount(newsz), PageCount(oldsz)) <= ptes.Keys
      modifies this`count, this`next, this`freelist, this`data, this`free, this`loose, this`ptes
      ensures Valid() && loose == old(loose)
      ensures r == if newsz >= oldsz then oldsz else newsz
      ensures ptes == old(ptes) - Pages(p, PageCount(newsz), PageCount(oldsz))
      ensures View() == old(View()) - Pages(p, PageCount(newsz), PageCount(oldsz))
    {
      hide Valid, View;
      if newsz >= oldsz {
        assert Pages(p, PageCount(newsz), PageCount(oldsz)) == {};
        return oldsz;
      }
      if PageCount(newsz) < PageCount(oldsz) {
        UvmUnmap(p, PageCount(newsz), PageCount(oldsz) - PageCount(newsz));
      } else {
        assert Pages(p, PageCount(newsz), PageCount(oldsz)) == {};
      }
      r := newsz;
    }

    // ---- freeing page tables ----

    /** freewalk: each table page of the subtree is freed exactly once (its count is exact by Valid). */
    method FreeWalk(p: Pid, level: nat, index: nat)
      requires Valid() && level <= 2 && Table(p, level, index) in tables
      requires forall k :: k in ptes ==> k.pid != p
      modifies this`count, this`next, this`freelist, this`data, this`free, this`loose, this`tables
      ensures Valid() && loose == old(loose) && View() == old(View())
      ensures SubtreeFreed(old(tables), tables, p, level, index)
      decreases level
    {
      hide Valid, View, SubtreeFreed, ChildrenFreed;
      NoneFreed(tables, p, level, index);
      if level > 0 {
        var i := 0;
        while i < 512
          invariant 0 <= i <= 512
          invariant Valid() && loose == old(loose) && View() == old(View())
          invariant ChildrenFreed(old(tables), tables, p, level, index, i)
        {
          ghost var before := tables;
          if Table(p, level - 1, index * 512 + i) in tables {
            FreeWalk(p, level - 1, index * 512 + i);
          } else {
            TablesRooted();
            AbsentSubtree(tables, p, level - 1, index * 512 + i);
          }
          NextChildFreed(old(tables), before, tables, p, level, index, i);
          i := i + 1;
        }
        AllChildrenFreed(old(tables), tables, p, level, index);
      }
      ghost var last := tables;
      RootStays(old(tables), tables, p, level, index);
      FreeTable(Table(p, level, index));
      SubtreeGone(old(tables), last, tables, p, level, index);
    }

    lemma TablesRooted()
      requires Valid()
      ensures Rooted(ptes, tables)
    {
    }

    /** uvmfree. */
    method UvmFree(p: Pid, sz: nat)
      requires Valid() && Table(p, 2, 0) in tables
      requires Pages(p, 0, PageCount(sz)) <= ptes.Keys
      requires forall k :: k in ptes && k.pid == p ==> k.vpn < PageCount(sz)
      modifies this`count, this`next, this`freelist, this`data, this`free, this`loose, this`ptes, this`tables
      ensures Valid() && loose == old(loose)
      ensures ptes == old(ptes) - Pages(p, 0, PageCount(sz))
      ensures View() == old(View()) - Pages(p, 0, PageCount(sz))
      ensures SubtreeFreed(old(tables), tables, p, 2, 0)
    {
      hide Valid, View, SubtreeFreed;
      if sz > 0 {
        UvmUnmap(p, 0, PageCount(sz));
      } else {
        assert Pages(p, 0, PageCount(sz)) == {};
      }
      NonePast(old(ptes), p, PageCount(sz));
      FreeWalk(p, 2, 0);
    }

    // ---- stores ----

    /** A page that is not copy-on-write is mapped nowhere else. */
    lemma Unshared(k: Key)
      requires Valid() && k in ptes && (!ptes[k].cow || ptes[k].w)
      ensures ptes[k].frame < |data| && forall j :: j in ptes && j != k ==> ptes[j].frame != ptes[k].frame
    {
    }

    /** memmove into a page of user memory. */
    method WritePage(k: Key, off: nat, bytes: seq<Byte>)
      requires Valid() && k in ptes && (!ptes[k].cow || ptes[k].w) && off + |bytes| <= PGSIZE
      modifies this`data
      ensures Valid() && k in old(View())
      ensures View() == old(View())[k := Patched(old(View())[k], off, bytes)]
    {
      Unshared(k);
      ghost var seen := View();
      ViewAt(k);
      var pa := ptes[k].frame;
      data := data[pa := Patched(data[pa], off, bytes)];
      PatchedContents(ptes, old(data), k, data[pa]);
    }

    /** A one-byte store by user code, with the fault it may take; false if it is not let through. */
    method UserStore(p: Pid, va: nat, b: Byte) returns (ok: bool)
      requires Valid()
      modifies this`count, this`next, this`freelist, this`data, this`free, this`loose, this`ptes
      ensures Valid() && loose == old(loose) && ptes.Keys == old(ptes).Keys
      ensures ok <==> StoreAllowed(old(ptes), Key(p, va / PGSIZE), |old(free)|)
      ensures ptes ==
              if ok && !old(ptes)[Key(p, va / PGSIZE)].w
              then AfterFault(old(ptes), Key(p, va / PGSIZE), old(free)[0]) else old(ptes)
      ensures ok ==> Wrote(old(View()), View(), p, va, [b])
      ensures !ok ==> View() == old(View()) && free == old(free)
    {
      hide Valid, View;
      var k := Key(p, va / PGSIZE);
      ok := k in ptes && ptes[k].u && ptes[k].w;
      if !ok {
        ok := CowPageFault(p, va / PGSIZE);
      }
      if ok {
        ghost var m := View();
        InView(k);
        WritePage(k, va % PGSIZE, [b]);
        WroteNothing(m, p, va);
        assert [b][..0] == [] && [b][0..0 + 1] == [b] && [b][..0 + 1] == [b];
        WroteMore(m, m, p, va, [b], 0, 1, k, va % PGSIZE);
      }
    }

    /** copyout. A failed call has written what precedes the first page it could not write. */
    method CopyOut(p: Pid, dst: nat, src: seq<Byte>) returns (ok: bool, ghost done: nat)
      requires Valid()
      modifies this`count, this`next, this`freelist, this`data, this`free, this`loose, this`ptes
      ensures Valid() && loose == old(loose) && ptes.Keys == old(ptes).Keys
      ensures done <= |src| && (ok <==> done == |src|)
      ensures !ok ==> !UserByte(p, dst + done) || (free == [] && ptes[Key(p, (dst + done) / PGSIZE)].cow)
      ensures Wrote(old(View()), View(), p, dst, src[..done])
      ensures MadePrivate(old(ptes), ptes, p, dst, dst + done)
    {
      hide Valid, View, Wrote, MadePrivate;
      ghost var m := View();
      NonePrivate(ptes, p, dst);
      var written := 0;
      WroteNothing(m, p, dst);
      assert src[..0] == [];
      while written < |src|
        invariant 0 <= written <= |src|
        invariant Valid() && loose == old(loose) && ptes.Keys == old(ptes).Keys
        invariant Wrote(m, View(), p, dst, src[..written])
        invariant MadePrivate(old(ptes), ptes, p, dst, dst + written)
        invariant 0 < written < |src| ==> (dst + written) % PGSIZE == 0
      {
        ghost var before := ptes;
        var k := Key(p, (dst + written) / PGSIZE);
        if k.vpn >= MAXVPN || k !in ptes || !ptes[k].u {
          return false, written;
        }
        if ptes[k].cow {
          var fixed := CowPageFault(p, k.vpn);
          if !fixed {
            return false, written;
          }
        }
        var off := (dst + written) % PGSIZE;
        var n := if PGSIZE - off > |src| - written then |src| - written else PGSIZE - off;
        ghost var m1 := View();
        InView(k);
        WritePage(k, off, src[written..written + n]);
        WroteMore(m, m1, p, dst, src, written, n, k, off);
        PrivateNext(old(ptes), before, ptes, p, dst, dst + written, n);
        NextPage(dst + written, n);
        written := written + n;
      }
      assert src[..|src|] == src;
      ok, done := true, written;
    }

    ghost predicate UserByte(p: Pid, a: nat)
      reads this
    {
      a / PGSIZE < MAXVPN && Key(p, a / PGSIZE) in ptes && ptes[Key(p, a / PGSIZE)].u
    }

    /** copyin: the bytes of user memory, or failure if some byte is not mapped for user access. */
    method CopyIn(p: Pid, src: nat, len: nat) returns (dst: Option<seq<Byte>>)
      requires Valid()
      ensures dst.Some? ==> |dst.value| == len && Reads(View(), p, src, dst.value)
      ensures dst.Some? <==> forall a: nat :: src <= a < src + len ==> UserByte(p, a)
    {
      hide Valid, View, Reads;
      var bytes: seq<Byte> := [];
      ReadsNothing(View(), p, src);
      while |bytes| < len
        invariant |bytes| <= len && Reads(View(), p, src, bytes)
        invariant forall a: nat :: src <= a < src + |bytes| ==> UserByte(p, a)
        decreases len - |bytes|
      {
        var a := src + |bytes|;
        var k := Key(p, a / PGSIZE);
        if k.vpn >= MAXVPN || k !in ptes || !ptes[k].u {
          assert !UserByte(p, a);
          return None;
        }
        var off := a % PGSIZE;
        var n := if PGSIZE - off > len - |bytes| then len - |bytes| else PGSIZE - off;
        ViewAt(k);
        ReadsMore(View(), p, src, bytes, k, off, n);
        forall b: nat | a <= b < a + n
          ensures UserByte(p, b)
        {
          assert b / PGSIZE == k.vpn;
        }
        bytes := bytes + data[ptes[k].frame][off..off + n];
      }
      dst := Some(bytes);
    }

    // ---- whole address spaces ----

    /** proc_pagetable: the root, and the tables above the trampoline and trapframe pages. */
    method CreatePageTable(p: Pid) returns (ok: bool)
      requires Valid() && (forall t :: t in tables && t.Table? ==> t.pid != p) && (forall k :: k in ptes ==> k.pid != p)
      modifies this`count, this`next, this`freelist, this`data, this`free, this`loose, this`tables
      ensures Valid() && loose == old(loose) && View() == old(View())
      ensures SpaceAdded(p, old(tables), tables)
      ensures if ok then Table(p, 2, 0) in tables else tables == old(tables)
      ensures ok <==> |old(free)| >= 3
      ensures ok ==> |free| == |old(free)| - 3 && tables.Keys == old(tables).Keys + Top(p)
    {
      hide Valid, View, SubtreeFreed, Above, Top;
      ok := NewTable(Table(p, 2, 0));
      if !ok {
        return;
      }
      ok := AddTop(p, old(tables).Keys);
      if !ok {
        ghost var built := tables;
        TablesRooted();
        FreeWalk(p, 2, 0);
        PageTableUndone(ptes, p, old(tables), built, tables);
      }
    }

    /** The tables above the trampoline and trapframe pages, under a new root. */
    method AddTop(p: Pid, ghost have: set<Table>) returns (ok: bool)
      requires Valid() && tables.Keys == have + {Table(p, 2, 0)} && forall t :: t in have && t.Table? ==> t.pid != p
      modifies this`count, this`freelist, this`data, this`free, this`loose, this`tables
      ensures Valid() && loose == old(loose) && View() == old(View()) && GrownFor(p, old(tables), tables)
      ensures ok <==> |old(free)| >= 2
      ensures ok ==> |free| == |old(free)| - 2 && tables.Keys == have + Top(p)
    {
      hide Valid, View, Above, Top;
      TopMissing(p, have);
      ok := WalkAlloc(p, MAXVPN - 1);
      if ok {
        ok := WalkAlloc(p, MAXVPN - 2);
      }
    }

    /** The trapframe page and page table of allocproc; everything is given back on failure. */
    method CreateSpace(p: Pid) returns (ok: bool)
      requires Valid() && (forall t :: t in tables ==> t.pid != p) && (forall k :: k in ptes ==> k.pid != p)
      modifies this`count, this`next, this`freelist, this`data, this`free, this`loose, this`tables
      ensures Valid() && loose == old(loose) && View() == old(View())
      ensures SpaceAdded(p, old(tables), tables)
      ensures if ok then Trapframe(p) in tables && Table(p, 2, 0) in tables else tables == old(tables)
      ensures ok <==> |old(free)| >= 4
      ensures ok ==> |free| == |old(free)| - 4 && tables.Keys == old(tables).Keys + {Trapframe(p)} + Top(p)
    {
      hide Valid, View;
      ok := NewTable(Trapframe(p));
      if !ok {
        return;
      }
      ok := CreatePageTable(p);
      if !ok {
        FreeTable(Trapframe(p));
        assert tables == old(tables);
      }
    }

    /** freeproc's part: the trapframe, then proc_freepagetable. */
    method DestroySpace(p: Pid, sz: nat)
      requires Valid() && Table(p, 2, 0) in tables && Trapframe(p) in tables
      requires Pages(p, 0, PageCount(sz)) <= ptes.Keys
      requires forall k :: k in ptes && k.pid == p ==> k.vpn < PageCount(sz)
      modifies this`count, this`next, this`freelist, this`data, this`free, this`loose, this`ptes, this`tables
      ensures Valid() && loose == old(loose)
      ensures ptes == old(ptes) - Pages(p, 0, PageCount(sz))
      ensures View() == old(View()) - Pages(p, 0, PageCount(sz))
      ensures forall t :: t in tables <==> t in old(tables) && t.pid != p
    {
      hide Valid, View, SubtreeFreed;
      FreeTable(Trapframe(p));
      ghost var built := tables;
      TablesRooted();
      ghost var leaves := ptes;
      UvmFree(p, sz);
      PageTableGone(leaves, p, built, tables);
      forall t
        ensures t in tables <==> t in old(tables) && t.pid != p
      {
        assert t in built <==> t in old(tables) && t != Trapframe(p);
      }
    }
  }
}
