/**
Whole calls of mappages and uvmunmap, with their loops, over the trees of all processes: what each does to
the words of one tree is one change of the flat map from process and page number to entry, and any run of
calls, by any processes, is a run of such changes.
*/
module PageRuns {
  import opened Wrappers
  import opened PageTree
  import opened PageEntries
  import opened PageSpaces
  import opened T = PageTable
  import R = PageRefs
  import C = CowMemory

  // ---- one call ----

  /** The tables, as the flat model has them, after the tree of p has become t. */
  function WithTables(base: Frame, tables: R.Tables, p: R.Pid, t: Tree): R.Tables {
    map x | x in tables.Keys + TablesOf(p, t) ::
      if x in tables then tables[x] else if Place(t, x) >= base then Place(t, x) - base else 0
  }

  function TablesOf(p: R.Pid, t: Tree): set<R.Table> {
    (set i | i in t.mid :: R.Table(p, 1, i)) + set j | j in t.low :: R.Table(p, 0, j)
  }

  function Place(t: Tree, x: R.Table): Frame {
    if x.Table? && x.level == 1 && x.index in t.mid then t.mid[x.index]
    else if x.Table? && x.level == 0 && x.index in t.low then t.low[x.index]
    else t.root
  }

  /** The entries after pages first up to first + n of p have been mapped or unmapped. */
  ghost function Changed(base: Frame, ptes: R.Ptes, p: R.Pid, first: nat, n: nat, c: Change): R.Ptes
    requires Fits(base, n, c)
  {
    match c
    case Unmap => ptes - R.Pages(p, first, first + n)
    case Map(_, _) =>
      map k | k in ptes.Keys + R.Pages(p, first, first + n) ::
        if k in R.Pages(p, first, first + n) then Decode(base, NewEntry(c, k.vpn - first)) else ptes[k]
  }

  /** A change that maps managed frames, if it maps any. */
  ghost predicate Fits(base: Frame, n: nat, c: Change) {
    c.Map? ==> forall k: nat :: k < n ==> IsValid(NewEntry(c, k)) && FrameOf(NewEntry(c, k)) >= base
  }

  ghost predicate FromPool(base: Frame, s: Spaces, pool: seq<Frame>) {
    forall f <- pool :: f !in s.mem && base <= f
  }

  /** What PageTable's methods promise of a call for process p that has changed n pages from first on. */
  ghost predicate TreeStep(base: Frame, s: Spaces, p: R.Pid, first: nat, n: nat, c: Change, s': Spaces) {
    && p in s.trees && p in s'.trees && s'.trees == s.trees[p := s'.trees[p]] && Good(s'.mem, s'.trees[p])
    && (exists pool :: FromPool(base, s, pool) && Framed(s.mem, s.trees[p], s'.mem, s'.trees[p], pool))
    && Rewritten(s.mem, s.trees[p], s'.mem, s'.trees[p], first, n, c)
    && Fits(base, n, c) && first + n <= C.TRAPFRAME_VPN
  }

  lemma ChangedAt(base: Frame, ptes: R.Ptes, p: R.Pid, first: nat, n: nat, c: Change, k: R.Key)
    requires Fits(base, n, c)
    ensures k in Changed(base, ptes, p, first, n, c) <==>
            if k.pid == p && first <= k.vpn < first + n then c.Map? else k in ptes
    ensures k in Changed(base, ptes, p, first, n, c) ==>
              Changed(base, ptes, p, first, n, c)[k] ==
              if k.pid == p && first <= k.vpn < first + n then Decode(base, NewEntry(c, k.vpn - first)) else ptes[k]
  {
    hide Decode, NewEntry, FrameOf, IsValid;
    assert k == R.Key(k.pid, k.vpn);
    assert k in R.Pages(p, first, first + n) <==> k.pid == p && first <= k.vpn < first + n;
  }

  /** Reading the tree of p gives the changed entries. */
  lemma LeavesChanged(base: Frame, s: Spaces, p: R.Pid, first: nat, n: nat, c: Change, s': Spaces, ptes: R.Ptes)
    requires TreeStep(base, s, p, first, n, c, s') && HasLeaves(base, s.mem, p, s.trees[p], ptes)
    ensures HasLeaves(base, s'.mem, p, s'.trees[p], Changed(base, ptes, p, first, n, c))
  {
    hide Decode, NewEntry, FrameOf, IsValid, EntryAt, Good, Framed, Changed;
    var t, t', ptes' := s.trees[p], s'.trees[p], Changed(base, ptes, p, first, n, c);
    forall v: nat | v < C.TRAPFRAME_VPN
      ensures Leaf(base, s'.mem, t', v) == if R.Key(p, v) in ptes' then Some(ptes'[R.Key(p, v)]) else None
    {
      ChangedAt(base, ptes, p, first, n, c, R.Key(p, v));
      assert Leaf(base, s.mem, t, v) == if R.Key(p, v) in ptes then Some(ptes[R.Key(p, v)]) else None;
      assert EntryAt(s'.mem, t', v) ==
             if first <= v < first + n then NewEntry(c, v - first) else EntryAt(s.mem, t, v);
      if first <= v < first + n && c.Unmap? { NoEntry(v - first); }
    }
  }

  lemma NoEntry(k: nat)
    ensures !IsValid(NewEntry(Unmap, k))
  {
  }

  lemma PlaceOf(base: Frame, p: R.Pid, t: Tree, t': Tree, pool: seq<Frame>, mem: Memory, mem': Memory,
                tables: R.Tables, x: R.Table)
    requires HasTables(base, p, t, tables) && Framed(mem, t, mem', t', pool) && forall f <- pool :: base <= f
    requires x in TablesOf(p, t') && (x in tables ==> base + tables[x] == Place(t', x))
    ensures x in WithTables(base, tables, p, t') && base + WithTables(base, tables, p, t')[x] == Place(t', x)
  {
    hide NodeOf;
    RootIsNode(t');
    TablesAreNodes(base, p, t, tables);
    assert NodeOf(t', Place(t', x));
  }

  /** And the flat model has its tables. */
  lemma TablesChanged(base: Frame, p: R.Pid, t: Tree, t': Tree, pool: seq<Frame>, mem: Memory, mem': Memory,
                      tables: R.Tables)
    requires HasTables(base, p, t, tables) && Framed(mem, t, mem', t', pool) && forall f <- pool :: base <= f
    ensures HasTables(base, p, t', WithTables(base, tables, p, t'))
  {
    hide NodeOf, WithTables;
    var tables' := WithTables(base, tables, p, t');
    TableKeys(base, tables, p, t, t');
    forall i <- t'.mid ensures R.Table(p, 1, i) in tables' && base + tables'[R.Table(p, 1, i)] == t'.mid[i] {
      PlaceOf(base, p, t, t', pool, mem, mem', tables, R.Table(p, 1, i));
    }
    forall j <- t'.low ensures R.Table(p, 0, j) in tables' && base + tables'[R.Table(p, 0, j)] == t'.low[j] {
      PlaceOf(base, p, t, t', pool, mem, mem', tables, R.Table(p, 0, j));
    }
  }

  lemma TableKeys(base: Frame, tables: R.Tables, p: R.Pid, t: Tree, t': Tree)
    requires HasTables(base, p, t, tables) && t.mid.Keys <= t'.mid.Keys && t.low.Keys <= t'.low.Keys
    ensures var r := WithTables(base, tables, p, t');
            && R.Table(p, 2, 0) in r && r[R.Table(p, 2, 0)] == tables[R.Table(p, 2, 0)]
            && (forall i: nat :: R.Table(p, 1, i) in r <==> i in t'.mid)
            && (forall j: nat :: R.Table(p, 0, j) in r <==> j in t'.low)
  {
  }

  lemma TablesAreNodes(base: Frame, p: R.Pid, t: Tree, tables: R.Tables)
    requires HasTables(base, p, t, tables)
    ensures forall f: Frame :: NodeOf(t, f) ==> f >= base
  {
  }

  lemma OthersKept(s: Spaces, p: R.Pid, s': Spaces, pool: seq<Frame>, q: R.Pid)
    requires TreesApart(s.trees) && p in s.trees && q in s.trees && p != q && p in s'.trees
    requires Framed(s.mem, s.trees[p], s'.mem, s'.trees[p], pool) && forall f <- s'.mem :: f < FRAMES
    ensures Agree(s.mem, s'.mem, s.trees[q])
  {
    hide NodeOf;
  }

  lemma StillApart(s: Spaces, p: R.Pid, s': Spaces, pool: seq<Frame>)
    requires TreesApart(s.trees) && p in s.trees && p in s'.trees && s'.trees == s.trees[p := s'.trees[p]]
    requires Framed(s.mem, s.trees[p], s'.mem, s'.trees[p], pool) && forall f <- pool :: f !in s.mem
    requires forall q, g :: q in s.trees && NodeOf(s.trees[q], g) ==> g in s.mem
    ensures TreesApart(s'.trees)
  {
    hide NodeOf;
  }

  lemma OthersTables(base: Frame, tables: R.Tables, p: R.Pid, t: Tree, x: R.Table)
    requires x.Table? ==> x.pid != p || x.level > 1
    ensures x in WithTables(base, tables, p, t) <==> x in tables
    ensures x in tables ==> WithTables(base, tables, p, t)[x] == tables[x]
  {
  }

  lemma GoodFrames(mem: Memory, t: Tree)
    requires Good(mem, t)
    ensures forall f <- mem :: f < FRAMES
  {
    hide RootFits, MidFits, LowFits;
  }

  /** One call on a tree is one change of the flat maps. */
  lemma StepRefines(base: Frame, s: Spaces, p: R.Pid, first: nat, n: nat, c: Change, s': Spaces, ptes: R.Ptes,
                    tables: R.Tables)
    requires Represents(base, s, ptes, tables) && TreeStep(base, s, p, first, n, c, s')
    ensures Represents(base, s', Changed(base, ptes, p, first, n, c), WithTables(base, tables, p, s'.trees[p]))
  {
    hide Good, NodeOf, HasLeaves, HasTables, Agree, Framed, Rewritten, Changed, WithTables, Space, Fits, TreesApart;
    var ptes', tables' := Changed(base, ptes, p, first, n, c), WithTables(base, tables, p, s'.trees[p]);
    var pool :| FromPool(base, s, pool) && Framed(s.mem, s.trees[p], s'.mem, s'.trees[p], pool);
    assert Space(base, s.mem, p, s.trees[p], ptes, tables);
    AllInMemory(base, s, ptes, tables);
    StillApart(s, p, s', pool);
    GoodFrames(s'.mem, s'.trees[p]);
    OwnChanged(base, s, p, first, n, c, s', ptes, tables, pool);
    forall x: R.Table | x.Table? ==> x.pid != p || x.level > 1
      ensures (x in tables' <==> x in tables) && (x in tables ==> tables'[x] == tables[x])
    {
      OthersTables(base, tables, p, s'.trees[p], x);
    }
    forall k: R.Key
      ensures k in ptes' ==> k.pid in s'.trees && k.vpn < C.TRAPFRAME_VPN
      ensures k.pid != p ==> (k in ptes' <==> k in ptes) && (k in ptes ==> ptes'[k] == ptes[k])
    {
      ChangedAt(base, ptes, p, first, n, c, k);
    }
    forall q | q in s'.trees ensures Space(base, s'.mem, q, s'.trees[q], ptes', tables') {
      if q != p {
        assert Space(base, s.mem, q, s.trees[q], ptes, tables);
        OthersKept(s, p, s', pool, q);
        OtherSpace(base, s.mem, s'.mem, q, s.trees[q], ptes, ptes', tables, tables');
      }
    }
  }

  lemma OwnChanged(base: Frame, s: Spaces, p: R.Pid, first: nat, n: nat, c: Change, s': Spaces, ptes: R.Ptes,
                   tables: R.Tables, pool: seq<Frame>)
    requires TreeStep(base, s, p, first, n, c, s') && Space(base, s.mem, p, s.trees[p], ptes, tables)
    requires FromPool(base, s, pool) && Framed(s.mem, s.trees[p], s'.mem, s'.trees[p], pool)
    ensures Space(base, s'.mem, p, s'.trees[p], Changed(base, ptes, p, first, n, c),
                  WithTables(base, tables, p, s'.trees[p]))
  {
    hide Good, NodeOf, HasLeaves, HasTables, Framed, Rewritten, Changed, WithTables, Fits;
    LeavesChanged(base, s, p, first, n, c, s', ptes);
    TablesChanged(base, p, s.trees[p], s'.trees[p], pool, s.mem, s'.mem, tables);
  }

  // ---- the calls themselves ----

  /** mappages for process p, whose page table pt is; the other processes' tables are in the same memory. */
  method MapRange(pt: PageTable, va: nat, size: nat, pa: nat, perm: nat, ghost base: Frame, ghost p: R.Pid,
                  ghost trees: map<R.Pid, Tree>, ghost ptes: R.Ptes, ghost tables: R.Tables)
    returns (r: Outcome, ghost done: nat)
    requires pt.Valid() && p in trees && trees[p] == pt.t && Represents(base, Spaces(pt.mem, trees), ptes, tables)
    requires size > 0 && va + size <= C.TRAPFRAME_VPN * PGSIZE && perm < 1024 && perm / 2 % 8 != 0
    requires base <= pa / PGSIZE && pa / PGSIZE + (va + size - 1) / PGSIZE - va / PGSIZE < FRAMES
    requires forall f <- pt.pool :: base <= f
    modifies pt
    ensures pt.Valid() && done <= (va + size - 1) / PGSIZE - va / PGSIZE + 1
    ensures r.Complete? <==> done == (va + size - 1) / PGSIZE - va / PGSIZE + 1
    ensures TreeStep(base, Spaces(old(pt.mem), trees), p, va / PGSIZE, done, Map(pa / PGSIZE, perm),
                     Spaces(pt.mem, trees[p := pt.t]))
    ensures Represents(base, Spaces(pt.mem, trees[p := pt.t]),
                       Changed(base, ptes, p, va / PGSIZE, done, Map(pa / PGSIZE, perm)),
                       WithTables(base, tables, p, pt.t))
  {
    hide Represents, Changed, WithTables, Good, Framed, Rewritten, TreeStep, Fits;
    ghost var s, c := Spaces(pt.mem, trees), Map(pa / PGSIZE, perm);
    pt.PoolFresh();
    ghost var pool := pt.pool;
    LastPage(va, size);
    r, done := pt.MapPages(va, size, pa, perm);
    MapFits(base, pa / PGSIZE, perm, done);
    ghost var s' := Spaces(pt.mem, trees[p := pt.t]);
    pt.GoodNow();
    IsTreeStep(base, s, p, va / PGSIZE, done, c, s', pool);
    StepRefines(base, s, p, va / PGSIZE, done, c, s', ptes, tables);
  }

  lemma LastPage(va: nat, size: nat)
    requires size > 0 && va + size <= C.TRAPFRAME_VPN * PGSIZE
    ensures va + size <= MAXVA && (va + size - 1) / PGSIZE + 1 <= C.TRAPFRAME_VPN
    ensures va / PGSIZE <= (va + size - 1) / PGSIZE
  {
  }

  lemma MapFits(base: Frame, f: Frame, perm: nat, n: nat)
    requires base <= f && f + n <= FRAMES && perm < 1024
    ensures Fits(base, n, Map(f, perm))
  {
    hide IsValid, FrameOf, Entry, IsPointer;
    forall k: nat | k < n
      ensures IsValid(NewEntry(Map(f, perm), k)) && FrameOf(NewEntry(Map(f, perm), k)) >= base
    {
      EntryParts(f + k, WithV(perm));
    }
  }

  lemma IsTreeStep(base: Frame, s: Spaces, p: R.Pid, first: nat, n: nat, c: Change, s': Spaces, pool: seq<Frame>)
    requires p in s.trees && p in s'.trees && s'.trees == s.trees[p := s'.trees[p]] && Good(s'.mem, s'.trees[p])
    requires FromPool(base, s, pool) && Framed(s.mem, s.trees[p], s'.mem, s'.trees[p], pool)
    requires Rewritten(s.mem, s.trees[p], s'.mem, s'.trees[p], first, n, c)
    requires Fits(base, n, c) && first + n <= C.TRAPFRAME_VPN
    ensures TreeStep(base, s, p, first, n, c, s')
  {
    hide Good, Framed, Rewritten, Fits;
  }

  /** uvmunmap for process p. */
  method UnmapRange(pt: PageTable, va: nat, npages: nat, doFree: bool, ghost base: Frame, ghost p: R.Pid,
                    ghost trees: map<R.Pid, Tree>, ghost ptes: R.Ptes, ghost tables: R.Tables)
    returns (r: Outcome, ghost done: nat)
    requires pt.Valid() && p in trees && trees[p] == pt.t && Represents(base, Spaces(pt.mem, trees), ptes, tables)
    requires va % PGSIZE == 0 && va + npages * PGSIZE <= C.TRAPFRAME_VPN * PGSIZE
    modifies pt
    ensures pt.Valid() && done <= npages && (r.Complete? <==> done == npages)
    ensures TreeStep(base, Spaces(old(pt.mem), trees), p, va / PGSIZE, done, Unmap, Spaces(pt.mem, trees[p := pt.t]))
    ensures Represents(base, Spaces(pt.mem, trees[p := pt.t]), ptes - R.Pages(p, va / PGSIZE, va / PGSIZE + done),
                       WithTables(base, tables, p, pt.t))
  {
    hide Represents, WithTables, Good, Framed, Rewritten, TreeStep;
    ghost var s := Spaces(pt.mem, trees);
    UnmapPages(va, npages);
    r, done := pt.UvmUnmap(va, npages, doFree);
    ghost var s' := Spaces(pt.mem, trees[p := pt.t]);
    pt.GoodNow();
    IsTreeStep(base, s, p, va / PGSIZE, done, Unmap, s', []);
    StepRefines(base, s, p, va / PGSIZE, done, Unmap, s', ptes, tables);
  }

  lemma UnmapPages(va: nat, npages: nat)
    requires va % PGSIZE == 0 && va + npages * PGSIZE <= C.TRAPFRAME_VPN * PGSIZE
    ensures va + npages * PGSIZE <= MAXVA && va / PGSIZE + npages <= C.TRAPFRAME_VPN
  {
  }

  /** walkaddr for process p: the page of a mapped user page, and 0 for any other address. */
  method LookUp(pt: PageTable, va: nat, ghost base: Frame, ghost p: R.Pid, ghost trees: map<R.Pid, Tree>,
                ghost ptes: R.Ptes, ghost tables: R.Tables) returns (pa: nat)
    requires pt.Valid() && p in trees && trees[p] == pt.t && Represents(base, Spaces(pt.mem, trees), ptes, tables)
    requires va / PGSIZE < C.TRAPFRAME_VPN && AllManaged(base, pt.mem, pt.t)
    modifies pt
    ensures pt.Valid() && pt.mem == old(pt.mem) && pt.t == old(pt.t)
    ensures var k := R.Key(p, va / PGSIZE);
            pa == if k in ptes && ptes[k].u then (base + ptes[k].frame) * PGSIZE else 0
  {
    hide Represents, Good, FrameOf, IsUser, IsValid, Decode, EntryAt;
    UserLeaf(base, Spaces(pt.mem, trees), ptes, tables, p, va / PGSIZE);
    InUserSpace(va);
    pa := pt.WalkAddr(va);
  }

  lemma InUserSpace(va: nat)
    requires va / PGSIZE < C.TRAPFRAME_VPN
    ensures va < MAXVA
  {
  }

  /** Leaf entries name managed frames, as all that user pages are mapped to are. */
  ghost predicate AllManaged(base: Frame, mem: Memory, t: Tree) {
    forall v: nat :: v < C.TRAPFRAME_VPN && IsValid(EntryAt(mem, t, v)) ==> FrameOf(EntryAt(mem, t, v)) >= base
  }

  lemma UserLeaf(base: Frame, s: Spaces, ptes: R.Ptes, tables: R.Tables, p: R.Pid, v: nat)
    requires Represents(base, s, ptes, tables) && p in s.trees && v < C.TRAPFRAME_VPN
    requires AllManaged(base, s.mem, s.trees[p])
    ensures var w := EntryAt(s.mem, s.trees[p], v); var k := R.Key(p, v);
            && (IsValid(w) <==> k in ptes)
            && (k in ptes ==> (IsUser(w) <==> ptes[k].u) && FrameOf(w) == base + ptes[k].frame)
  {
    hide Good, HasTables, IsValid, FrameOf, EntryAt;
    assert Space(base, s.mem, p, s.trees[p], ptes, tables);
    assert Leaf(base, s.mem, s.trees[p], v) == if R.Key(p, v) in ptes then Some(ptes[R.Key(p, v)]) else None;
  }

  // ---- runs of calls ----

  datatype Call = Call(p: R.Pid, first: nat, n: nat, c: Change)

  ghost predicate TreeRun(base: Frame, run: seq<Spaces>, calls: seq<Call>) {
    && |run| == |calls| + 1
    && forall i :: 0 <= i < |calls| ==>
         TreeStep(base, run[i], calls[i].p, calls[i].first, calls[i].n, calls[i].c, run[i + 1])
  }

  ghost predicate FlatRun(base: Frame, flat: seq<R.Ptes>, calls: seq<Call>) {
    && |flat| == |calls| + 1
    && forall i :: 0 <= i < |calls| ==>
         && Fits(base, calls[i].n, calls[i].c)
         && flat[i + 1] == Changed(base, flat[i], calls[i].p, calls[i].first, calls[i].n, calls[i].c)
  }

  /** Any run of calls on the trees is a run on the flat map, which goes on saying what is in memory. */
  lemma {:induction false} RunRefines(base: Frame, run: seq<Spaces>, calls: seq<Call>, ptes: R.Ptes, tables: R.Tables)
    returns (flat: seq<R.Ptes>, tables': R.Tables)
    requires TreeRun(base, run, calls) && Represents(base, run[0], ptes, tables)
    ensures FlatRun(base, flat, calls) && flat[0] == ptes && Represents(base, run[|calls|], flat[|calls|], tables')
    decreases |calls|
  {
    hide TreeStep, Represents, Changed, Fits;
    if calls == [] {
      flat, tables' := [ptes], tables;
    } else {
      var n := |calls| - 1;
      var last := calls[n];
      forall i | 0 <= i < n
        ensures TreeStep(base, run[..n + 1][i], calls[..n][i].p, calls[..n][i].first, calls[..n][i].n, calls[..n][i].c,
                         run[..n + 1][i + 1])
      {
        assert TreeStep(base, run[i], calls[i].p, calls[i].first, calls[i].n, calls[i].c, run[i + 1]);
      }
      var front, mid := RunRefines(base, run[..n + 1], calls[..n], ptes, tables);
      assert TreeStep(base, run[n], last.p, last.first, last.n, last.c, run[n + 1]);
      StepFits(base, run[n], last, run[n + 1]);
      StepRefines(base, run[n], last.p, last.first, last.n, last.c, run[n + 1], front[n], mid);
      flat := front + [Changed(base, front[n], last.p, last.first, last.n, last.c)];
      tables' := WithTables(base, mid, last.p, run[n + 1].trees[last.p]);
    }
  }

  lemma StepFits(base: Frame, s: Spaces, call: Call, s': Spaces)
    requires TreeStep(base, s, call.p, call.first, call.n, call.c, s')
    ensures Fits(base, call.n, call.c) && call.p in s'.trees
  {
    hide Good, Framed, Rewritten, Fits;
  }
}
