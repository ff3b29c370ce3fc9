/**
Page-table entries, page-table pages and the references they make to physical frames.
Frames are numbered from 0 over the memory managed by kernel/kalloc.c. The leaf entries of
all processes are one map keyed by process and virtual page number; the page-table pages
(and each process's trapframe page) are one map keyed by what they translate.
*/
module PageRefs {
  import opened Wrappers

  const PGSIZE := 4096

  type Pid = nat
  type Frame = nat
  type Byte = b: int | 0 <= b < 256
  type Page = p: seq<Byte> | |p| == PGSIZE witness seq(PGSIZE, _ => 0)

  /** A valid leaf entry; PTE_V is being in the map. */
  datatype Pte = Pte(frame: Frame, r: bool, w: bool, x: bool, u: bool, cow: bool)

  /** The leaf entry of a virtual page of a process. */
  datatype Key = Key(pid: Pid, vpn: nat)

  /** Level 2 is the root, 1 and 0 the tables below it, numbered by the pages they cover. */
  datatype Table =
    | Table(pid: Pid, level: nat, index: nat)
    | Trapframe(pid: Pid)

  type Ptes = map<Key, Pte>
  type Tables = map<Table, Frame>

  ghost function UserRefs(ptes: Ptes, f: Frame): set<Key> {
    set k | k in ptes && ptes[k].frame == f
  }

  ghost function TableRefs(tables: Tables, f: Frame): set<Table> {
    set t | t in tables && tables[t] == f
  }

  /** Each frame's count is its user mappings, its table links, and the loose references:
      those the running code holds between two steps, and those lost for good. */
  ghost predicate Counted(ptes: Ptes, tables: Tables, loose: seq<nat>, count: seq<int>) {
    && |loose| == |count|
    && (forall f :: 0 <= f < |count| ==> count[f] == |UserRefs(ptes, f)| + |TableRefs(tables, f)| + loose[f])
  }

  /** A frame mapped twice is copy-on-write and unwritable in both places. */
  ghost predicate Sharing(ptes: Ptes) {
    forall j, k :: j in ptes && k in ptes && j != k && ptes[j].frame == ptes[k].frame
      ==> ptes[j].cow && !ptes[j].w
  }

  /** Page-table pages are neither mapped into user memory nor used twice. */
  ghost predicate Separate(ptes: Ptes, tables: Tables) {
    && (forall t, k :: t in tables && k in ptes ==> tables[t] != ptes[k].frame)
    && (forall t, t' :: t in tables && t' in tables && tables[t] == tables[t'] ==> t == t')
  }

  ghost predicate InRange(ptes: Ptes, tables: Tables, frames: nat) {
    && (forall k :: k in ptes ==> ptes[k].frame < frames)
    && (forall t :: t in tables ==> tables[t] < frames)
  }

  /** The pages user code sees. */
  ghost function Contents(ptes: Ptes, data: seq<Page>): map<Key, Page>
    requires forall k :: k in ptes ==> ptes[k].frame < |data|
  {
    map k | k in ptes :: data[ptes[k].frame]
  }

  /** Overwriting a frame that is not mapped changes no one's contents. */
  lemma UnmappedWrite(ptes: Ptes, data: seq<Page>, f: Frame, page: Page)
    requires forall k :: k in ptes ==> ptes[k].frame < |data| && ptes[k].frame != f
    requires f < |data|
    ensures Contents(ptes, data[f := page]) == Contents(ptes, data)
  {
  }

  lemma AddContents(ptes: Ptes, data: seq<Page>, k: Key, pte: Pte)
    requires forall j :: j in ptes ==> ptes[j].frame < |data|
    requires pte.frame < |data|
    ensures Contents(ptes[k := pte], data) == Contents(ptes, data)[k := data[pte.frame]]
  {
  }

  lemma DropContents(ptes: Ptes, data: seq<Page>, k: Key)
    requires forall j :: j in ptes ==> ptes[j].frame < |data|
    ensures Contents(ptes - {k}, data) == Contents(ptes, data) - {k}
  {
  }

  lemma FlagsContents(ptes: Ptes, data: seq<Page>, k: Key, pte: Pte)
    requires forall j :: j in ptes ==> ptes[j].frame < |data|
    requires k in ptes && ptes[k].frame == pte.frame
    ensures Contents(ptes[k := pte], data) == Contents(ptes, data)
  {
  }

  lemma FlagsSharing(ptes: Ptes, k: Key, pte: Pte)
    requires Sharing(ptes) && k in ptes && ptes[k].frame == pte.frame
    requires forall j :: j in ptes && j != k && ptes[j].frame == pte.frame ==> pte.cow && !pte.w
    ensures Sharing(ptes[k := pte])
  {
    var ptes' := ptes[k := pte];
    forall i, j | i in ptes' && j in ptes' && i != j && ptes'[i].frame == ptes'[j].frame
      ensures ptes'[i].cow && !ptes'[i].w
    {
      assert ptes[i].frame == ptes[j].frame;
    }
  }

  // ---- how the counts follow each kind of change ----

  lemma UserRefsAdd(ptes: Ptes, k: Key, pte: Pte, f: Frame)
    requires k !in ptes
    ensures |UserRefs(ptes[k := pte], f)| == |UserRefs(ptes, f)| + if f == pte.frame then 1 else 0
  {
    if f == pte.frame {
      assert UserRefs(ptes[k := pte], f) == UserRefs(ptes, f) + {k};
    } else {
      assert UserRefs(ptes[k := pte], f) == UserRefs(ptes, f);
    }
  }

  lemma TableRefsAdd(tables: Tables, t: Table, g: Frame, f: Frame)
    requires t !in tables
    ensures |TableRefs(tables[t := g], f)| == |TableRefs(tables, f)| + if f == g then 1 else 0
  {
    if f == g {
      assert TableRefs(tables[t := g], f) == TableRefs(tables, f) + {t};
    } else {
      assert TableRefs(tables[t := g], f) == TableRefs(tables, f);
    }
  }

  lemma MapCounted(ptes: Ptes, tables: Tables, loose: seq<nat>, count: seq<int>, k: Key, pte: Pte)
    requires Counted(ptes, tables, loose, count)
    requires k !in ptes && pte.frame < |loose| && loose[pte.frame] > 0
    ensures Counted(ptes[k := pte], tables, loose[pte.frame := loose[pte.frame] - 1], count)
  {
    forall f | 0 <= f < |count| {
      UserRefsAdd(ptes, k, pte, f);
    }
  }

  lemma UnmapCounted(ptes: Ptes, tables: Tables, loose: seq<nat>, count: seq<int>, k: Key)
    requires Counted(ptes, tables, loose, count)
    requires k in ptes && ptes[k].frame < |loose|
    ensures Counted(ptes - {k}, tables, loose[ptes[k].frame := loose[ptes[k].frame] + 1], count)
  {
    assert (ptes - {k})[k := ptes[k]] == ptes;
    forall f | 0 <= f < |count| {
      UserRefsAdd(ptes - {k}, k, ptes[k], f);
    }
  }

  /** One store that points an entry at another frame. */
  lemma RemapCounted(ptes: Ptes, tables: Tables, loose: seq<nat>, count: seq<int>, k: Key, pte: Pte)
    requires Counted(ptes, tables, loose, count)
    requires k in ptes && ptes[k].frame < |loose| && pte.frame < |loose| && ptes[k].frame != pte.frame
    requires loose[pte.frame] > 0
    ensures var f := ptes[k].frame;
            Counted(ptes[k := pte], tables, loose[pte.frame := loose[pte.frame] - 1][f := loose[f] + 1], count)
  {
    var f := ptes[k].frame;
    UnmapCounted(ptes, tables, loose, count, k);
    var loose1 := loose[f := loose[f] + 1];
    MapCounted(ptes - {k}, tables, loose1, count, k, pte);
    assert (ptes - {k})[k := pte] == ptes[k := pte];
    assert loose1[pte.frame := loose1[pte.frame] - 1] == loose[pte.frame := loose[pte.frame] - 1][f := loose[f] + 1];
  }

  lemma FreshSharing(ptes: Ptes, k: Key, pte: Pte)
    requires Sharing(ptes) && forall j :: j in ptes ==> ptes[j].frame != pte.frame
    ensures Sharing(ptes[k := pte])
  {
  }

  lemma ReflagCounted(ptes: Ptes, tables: Tables, loose: seq<nat>, count: seq<int>, k: Key, pte: Pte)
    requires Counted(ptes, tables, loose, count)
    requires k in ptes && ptes[k].frame == pte.frame
    ensures Counted(ptes[k := pte], tables, loose, count)
  {
    forall f
      ensures UserRefs(ptes[k := pte], f) == UserRefs(ptes, f)
    {
    }
  }

  lemma LinkCounted(ptes: Ptes, tables: Tables, loose: seq<nat>, count: seq<int>, t: Table, g: Frame)
    requires Counted(ptes, tables, loose, count)
    requires t !in tables && g < |loose| && loose[g] > 0
    ensures Counted(ptes, tables[t := g], loose[g := loose[g] - 1], count)
  {
    forall f | 0 <= f < |count| {
      TableRefsAdd(tables, t, g, f);
    }
  }

  lemma UnlinkCounted(ptes: Ptes, tables: Tables, loose: seq<nat>, count: seq<int>, t: Table)
    requires Counted(ptes, tables, loose, count)
    requires t in tables && tables[t] < |loose|
    ensures Counted(ptes, tables - {t}, loose[tables[t] := loose[tables[t]] + 1], count)
  {
    assert (tables - {t})[t := tables[t]] == tables;
    forall f | 0 <= f < |count| {
      TableRefsAdd(tables - {t}, t, tables[t], f);
    }
  }

  lemma AdjustCounted(ptes: Ptes, tables: Tables, loose: seq<nat>, count: seq<int>, f: Frame, d: int)
    requires Counted(ptes, tables, loose, count)
    requires f < |loose| && loose[f] + d >= 0
    ensures Counted(ptes, tables, loose[f := loose[f] + d], count[f := count[f] + d])
  {
  }

  /** A frame whose count is 0 is referenced by nothing; one that is referenced has a positive count. */
  lemma UnreferencedWhenZero(ptes: Ptes, tables: Tables, loose: seq<nat>, count: seq<int>, f: Frame)
    requires Counted(ptes, tables, loose, count) && f < |count| && count[f] == 0
    ensures loose[f] == 0
    ensures forall k :: k in ptes ==> ptes[k].frame != f
    ensures forall t :: t in tables ==> tables[t] != f
  {
    assert UserRefs(ptes, f) == {} && TableRefs(tables, f) == {};
    forall k | k in ptes
      ensures ptes[k].frame != f
    {
      assert k !in UserRefs(ptes, f);
    }
    forall t | t in tables
      ensures tables[t] != f
    {
      assert t !in TableRefs(tables, f);
    }
  }

  /** Frames in use before a change keep their contents and their counts. */
  ghost predicate KeepsUsed(count: seq<int>, data: seq<Page>, count': seq<int>, data': seq<Page>) {
    && |count| == |data| == |count'| == |data'|
    && (forall f :: 0 <= f < |count| && count[f] > 0 ==> count'[f] == count[f] && data'[f] == data[f])
  }

  lemma KeepsUsedOn(c0: seq<int>, d0: seq<Page>, c1: seq<int>, d1: seq<Page>, c2: seq<int>, d2: seq<Page>)
    requires KeepsUsed(c0, d0, c1, d1) && KeepsUsed(c1, d1, c2, d2) && forall f :: 0 <= f < |c0| ==> c0[f] >= 0
    ensures KeepsUsed(c0, d0, c2, d2) && |c0| == |c1| == |c2|
    ensures forall f :: 0 <= f < |c0| && c1[f] == 0 ==> c0[f] == 0
  {
  }

  lemma MappedIsUsed(ptes: Ptes, tables: Tables, loose: seq<nat>, count: seq<int>, k: Key)
    requires Counted(ptes, tables, loose, count) && k in ptes && ptes[k].frame < |count|
    ensures count[ptes[k].frame] >= 1 + loose[ptes[k].frame]
  {
    assert k in UserRefs(ptes, ptes[k].frame);
  }

  lemma LooseIsUsed(ptes: Ptes, tables: Tables, loose: seq<nat>, count: seq<int>)
    requires Counted(ptes, tables, loose, count)
    ensures forall f :: 0 <= f < |count| ==> count[f] >= loose[f]
  {
  }

  /** The keys of pages lo up to hi of a process. */
  ghost function Pages(p: Pid, lo: nat, hi: nat): set<Key> {
    set v | lo <= v < hi :: Key(p, v)
  }

  lemma PagesLast(p: Pid, lo: nat, hi: nat)
    requires lo <= hi
    ensures Pages(p, lo, hi + 1) == Pages(p, lo, hi) + {Key(p, hi)}
    ensures Key(p, hi) !in Pages(p, lo, hi)
  {
  }

  lemma NonePast<T>(m: map<Key, T>, p: Pid, n: nat)
    requires forall k :: k in m && k.pid == p ==> k.vpn < n
    ensures forall k :: k in m - Pages(p, 0, n) ==> k.pid != p
  {
    forall k | k in m && k.pid == p
      ensures k in Pages(p, 0, n)
    {
      assert k == Key(p, k.vpn);
    }
  }

  lemma DropPages<T>(m: map<Key, T>, p: Pid, lo: nat, hi: nat)
    requires lo <= hi && Key(p, hi) in m
    ensures Key(p, hi) in m - Pages(p, lo, hi)
    ensures m - Pages(p, lo, hi) - {Key(p, hi)} == m - Pages(p, lo, hi + 1)
  {
    PagesLast(p, lo, hi);
  }

  lemma PatchedContents(ptes: Ptes, data: seq<Page>, k: Key, page: Page)
    requires forall j :: j in ptes ==> ptes[j].frame < |data|
    requires k in ptes && forall j :: j in ptes && j != k ==> ptes[j].frame != ptes[k].frame
    ensures Contents(ptes, data[ptes[k].frame := page]) == Contents(ptes, data)[k := page]
  {
  }

  lemma SameFrameContents(ptes: Ptes, data: seq<Page>, k: Key, pte: Pte)
    requires forall j :: j in ptes ==> ptes[j].frame < |data|
    requires k in ptes && pte.frame < |data| && data[pte.frame] == data[ptes[k].frame]
    ensures Contents(ptes[k := pte], data) == Contents(ptes, data)
  {
  }

  /** m' is m with a copy of pages 0 up to n of process p added for process c. */
  ghost predicate Forked<T(!new)>(m: map<Key, T>, m': map<Key, T>, p: Pid, c: Pid, n: nat) {
    && (forall k :: k in m ==> k in m' && m'[k] == m[k])
    && (forall v: nat :: v < n ==> Key(c, v) in m' && Key(p, v) in m && m'[Key(c, v)] == m[Key(p, v)])
    && (forall k :: k in m' ==> k in m || (k.pid == c && k.vpn < n))
  }

  lemma ForkedNext<T(!new)>(m: map<Key, T>, m': map<Key, T>, p: Pid, c: Pid, n: nat)
    requires Forked(m, m', p, c, n) && p != c && forall k :: k in m ==> k.pid != c
    requires Key(p, n) in m
    ensures Key(p, n) in m' && Key(c, n) !in m'
    ensures Forked(m, m'[Key(c, n) := m'[Key(p, n)]], p, c, n + 1)
  {
  }

  lemma ForkUndone<T(!new)>(m: map<Key, T>, m': map<Key, T>, p: Pid, c: Pid, n: nat)
    requires Forked(m, m', p, c, n) && forall k :: k in m ==> k.pid != c
    ensures Pages(c, 0, n) <= m'.Keys
    ensures m' - Pages(c, 0, n) == m
  {
  }

  /** m' is m with entries for pages lo up to hi of process p added. */
  ghost predicate Added<T(!new)>(m: map<Key, T>, m': map<Key, T>, p: Pid, lo: nat, hi: nat) {
    && (forall k :: k in m ==> k in m' && m'[k] == m[k])
    && (forall v: nat :: lo <= v < hi ==> Key(p, v) in m')
    && (forall k :: k in m' ==> k in m || (k.pid == p && lo <= k.vpn < hi))
  }

  lemma AddedNext<T(!new)>(m: map<Key, T>, m': map<Key, T>, p: Pid, lo: nat, hi: nat, x: T)
    requires Added(m, m', p, lo, hi) && lo <= hi && Key(p, hi) !in m
    ensures Key(p, hi) !in m'
    ensures Added(m, m'[Key(p, hi) := x], p, lo, hi + 1)
  {
  }

  lemma AddedUndone<T(!new)>(m: map<Key, T>, m': map<Key, T>, p: Pid, lo: nat, hi: nat)
    requires Added(m, m', p, lo, hi) && forall v: nat :: lo <= v < hi ==> Key(p, v) !in m
    ensures Pages(p, lo, hi) <= m'.Keys
    ensures m' - Pages(p, lo, hi) == m
  {
  }

  function ZeroPage(): Page {
    seq(PGSIZE, _ => 0)
  }

  /** m' is m with zeroed pages lo up to hi of process p added. */
  ghost predicate Grown(m: map<Key, Page>, m': map<Key, Page>, p: Pid, lo: nat, hi: nat) {
    Added(m, m', p, lo, hi) && forall v: nat :: lo <= v < hi ==> m'[Key(p, v)] == ZeroPage()
  }

  lemma GrownNext(m: map<Key, Page>, m': map<Key, Page>, p: Pid, lo: nat, hi: nat)
    requires Grown(m, m', p, lo, hi) && lo <= hi && Key(p, hi) !in m
    ensures Grown(m, m'[Key(p, hi) := ZeroPage()], p, lo, hi + 1)
  {
    AddedNext(m, m', p, lo, hi, ZeroPage());
  }

  // ---- bytes at user addresses ----

  /** m' is m with bytes written from virtual address dst of process p on; all of them are mapped. */
  ghost predicate Wrote(m: map<Key, Page>, m': map<Key, Page>, p: Pid, dst: nat, bytes: seq<Byte>) {
    && m'.Keys == m.Keys
    && (forall k, i :: k in m && k in m' && 0 <= i < PGSIZE ==>
          m'[k][i] == if k.pid == p && dst <= k.vpn * PGSIZE + i < dst + |bytes|
                      then bytes[k.vpn * PGSIZE + i - dst] else m[k][i])
    && (forall a: nat :: dst <= a < dst + |bytes| ==> Key(p, a / PGSIZE) in m)
  }

  /** The byte at a virtual address, if its page is mapped. */
  function ByteAt(m: map<Key, Page>, p: Pid, a: nat): Option<Byte> {
    var k := Key(p, a / PGSIZE);
    if k in m then Some(m[k][a % PGSIZE]) else None
  }

  ghost predicate Reads(m: map<Key, Page>, p: Pid, src: nat, bytes: seq<Byte>) {
    forall i :: 0 <= i < |bytes| ==> ByteAt(m, p, src + i) == Some(bytes[i])
  }

  /** One memmove of copyin extends what has been read. */
  lemma ReadsMore(m: map<Key, Page>, p: Pid, src: nat, bytes: seq<Byte>, k: Key, off: nat, n: nat)
    requires Reads(m, p, src, bytes) && k in m && k.pid == p
    requires src + |bytes| == k.vpn * PGSIZE + off && off + n <= PGSIZE
    ensures Reads(m, p, src, bytes + m[k][off..off + n])
  {
    var more := bytes + m[k][off..off + n];
    forall i | 0 <= i < |more|
      ensures ByteAt(m, p, src + i) == Some(more[i])
    {
      if i >= |bytes| {
        assert src + i == k.vpn * PGSIZE + (off + i - |bytes|);
        assert (src + i) / PGSIZE == k.vpn && (src + i) % PGSIZE == off + i - |bytes|;
      }
    }
  }

  lemma ReadsNothing(m: map<Key, Page>, p: Pid, src: nat)
    ensures Reads(m, p, src, [])
  {
  }

  lemma WroteNothing(m: map<Key, Page>, p: Pid, dst: nat)
    ensures Wrote(m, m, p, dst, [])
  {
  }

  function Patched(page: Page, off: nat, bytes: seq<Byte>): Page
    requires off + |bytes| <= PGSIZE
  {
    page[..off] + bytes + page[off + |bytes|..]
  }

  /** One memmove of copyout extends what has been written. */
  lemma WroteMore(m: map<Key, Page>, m1: map<Key, Page>, p: Pid, dst: nat, src: seq<Byte>, done: nat, n: nat, k: Key,
                  off: nat)
    requires done + n <= |src| && Wrote(m, m1, p, dst, src[..done])
    requires k in m1 && k.pid == p && dst + done == k.vpn * PGSIZE + off && off + n <= PGSIZE
    ensures Wrote(m, m1[k := Patched(m1[k], off, src[done..done + n])], p, dst, src[..done + n])
  {
    var m2 := m1[k := Patched(m1[k], off, src[done..done + n])];
    forall j, i | j in m && j in m2 && 0 <= i < PGSIZE
      ensures m2[j][i] == if j.pid == p && dst <= j.vpn * PGSIZE + i < dst + done + n
                          then src[j.vpn * PGSIZE + i - dst] else m[j][i]
    {
      if j == k {
        assert m1[j][i] ==
               if dst <= j.vpn * PGSIZE + i < dst + done then src[..done][j.vpn * PGSIZE + i - dst] else m[j][i];
      } else {
        assert j.pid == p ==> j.vpn != k.vpn;
        assert m2[j] == m1[j];
      }
    }
    forall a: nat | dst <= a < dst + done + n
      ensures Key(p, a / PGSIZE) in m
    {
      if a >= dst + done {
        assert a / PGSIZE == k.vpn;
      }
    }
  }
}
