/**
The three-level page table of kernel/vm.c as it lies in memory: pages of 512 64-bit words, laid out as
Sv39 (section 4.4 of the RISC-V Privileged Architecture, version 20211203) says, and the map from page
number to entry that they stand for.
*/
module PageTree {
  import opened Wrappers

  type Frame = nat  // physical page number
  type Word = w: nat | w < 0x1_0000_0000_0000_0000
  type Table = t: seq<Word> | |t| == 512 witness seq(512, _ => 0)

  const PGSIZE: nat := 4096
  const MAXVA: nat := 512 * 512 * 256 * 4096
  const FRAMES: nat := 0x1000_0000_0000  // 2^44: a physical page number has 44 bits

  // ---- entries ----

  /** *pte & PTE_V */
  predicate IsValid(w: Word) {
    w % 2 == 1
  }

  /** (*pte & (PTE_R | PTE_W | PTE_X)) == 0 */
  predicate IsPointer(w: Word) {
    w / 2 % 8 == 0
  }

  /** *pte & PTE_U */
  predicate IsUser(w: Word) {
    w / 16 % 2 == 1
  }

  /** PTE2PA(pte) / PGSIZE */
  function FrameOf(w: Word): Frame {
    w / 1024 % FRAMES
  }

  /** PA2PTE(frame * PGSIZE) | flags, for flags in the low ten bits */
  function Entry(f: Frame, flags: nat): Word
    requires f < FRAMES && flags < 1024
  {
    f * 1024 + flags
  }

  lemma EntryParts(f: Frame, flags: nat)
    requires f < FRAMES && flags < 1024
    ensures FrameOf(Entry(f, flags)) == f && Entry(f, flags) % 1024 == flags
    ensures IsValid(Entry(f, flags)) == (flags % 2 == 1) && IsPointer(Entry(f, flags)) == (flags / 2 % 8 == 0)
  {
    hide IsValid, IsPointer, FrameOf;
    EntryFrame(f, flags);
    EntryValid(f, flags);
    EntryPointer(f, flags);
  }

  lemma EntryFrame(f: Frame, flags: nat)
    requires f < FRAMES && flags < 1024
    ensures FrameOf(Entry(f, flags)) == f && Entry(f, flags) % 1024 == flags
  {
    var w := Entry(f, flags);
    assert w / 1024 == f;
  }

  lemma EntryValid(f: Frame, flags: nat)
    requires f < FRAMES && flags < 1024
    ensures IsValid(Entry(f, flags)) == (flags % 2 == 1)
  {
    assert Entry(f, flags) == 2 * (512 * f + flags / 2) + flags % 2;
  }

  lemma EntryPointer(f: Frame, flags: nat)
    requires f < FRAMES && flags < 1024
    ensures IsPointer(Entry(f, flags)) == (flags / 2 % 8 == 0)
  {
    var h := flags / 2;
    Half(512 * f + h, flags % 2);
    Eighth(64 * f + h / 8, h % 8);
  }

  lemma Half(q: nat, r: nat)
    requires r < 2
    ensures (2 * q + r) / 2 == q
  {
  }

  lemma Eighth(q: nat, r: nat)
    requires r < 8
    ensures (8 * q + r) % 8 == r
  {
  }

  /** perm | PTE_V */
  function WithV(perm: nat): (r: nat)
    requires perm < 1024
    ensures r < 1024 && r % 2 == 1 && r / 2 == perm / 2
  {
    if perm % 2 == 1 then perm else perm + 1
  }

  /** PX(level, va) for the page number va / PGSIZE */
  function Px(level: nat, vpn: nat): (i: nat)
    requires level < 3
    ensures i < 512
  {
    if level == 0 then vpn % 512 else if level == 1 then vpn / 512 % 512 else vpn / 512 / 512 % 512
  }

  // ---- the tree ----

  /** Where the tables are: the root, the level-1 tables by their root index, the level-0 ones by vpn / 512. */
  datatype Tree = Tree(root: Frame, mid: map<nat, Frame>, low: map<nat, Frame>)

  type Memory = map<Frame, Table>

  ghost predicate Placed(mem: Memory, t: Tree) {
    && t.root in mem
    && (forall i <- t.mid :: i < 512 && t.mid[i] in mem)
    && (forall j <- t.low :: j / 512 in t.mid && t.low[j] in mem)
  }

  /** No frame serves as two tables, and all of mem is tables of this tree. */
  ghost predicate Apart(mem: Memory, t: Tree) {
    && (forall i <- t.mid :: t.mid[i] != t.root)
    && (forall j <- t.low :: t.low[j] != t.root)
    && (forall i <- t.mid, j <- t.low :: t.mid[i] != t.low[j])
    && (forall i <- t.mid, k <- t.mid :: i != k ==> t.mid[i] != t.mid[k])
    && (forall j <- t.low, k <- t.low :: j != k ==> t.low[j] != t.low[k])
    && (forall f <- mem :: f < FRAMES)
  }

  predicate RootFits(mem: Memory, t: Tree, i: nat)
    requires t.root in mem && i < 512
  {
    if i in t.mid then t.mid[i] < FRAMES && mem[t.root][i] == Entry(t.mid[i], 1) else !IsValid(mem[t.root][i])
  }

  predicate MidFits(mem: Memory, t: Tree, i: nat, k: nat)
    requires i in t.mid && t.mid[i] in mem && k < 512
  {
    var w := mem[t.mid[i]][k];
    if i * 512 + k in t.low then t.low[i * 512 + k] < FRAMES && w == Entry(t.low[i * 512 + k], 1) else !IsValid(w)
  }

  predicate LowFits(mem: Memory, t: Tree, j: nat, k: nat)
    requires j in t.low && t.low[j] in mem && k < 512
  {
    IsValid(mem[t.low[j]][k]) ==> !IsPointer(mem[t.low[j]][k])
  }

  ghost predicate Good(mem: Memory, t: Tree) {
    && Placed(mem, t) && Apart(mem, t)
    && (forall i :: 0 <= i < 512 ==> RootFits(mem, t, i))
    && (forall i, k :: i in t.mid && 0 <= k < 512 ==> MidFits(mem, t, i, k))
    && (forall j, k :: j in t.low && 0 <= k < 512 ==> LowFits(mem, t, j, k))
  }

  /** The entry for a page: 0 where the tree has no table for it. */
  function EntryAt(mem: Memory, t: Tree, vpn: nat): Word {
    if vpn / 512 in t.low && t.low[vpn / 512] in mem then mem[t.low[vpn / 512]][vpn % 512] else 0
  }

  /** The same translations. */
  ghost predicate SameEntries(mem: Memory, t: Tree, mem': Memory, t': Tree) {
    forall vpn: nat :: EntryAt(mem', t', vpn) == EntryAt(mem, t, vpn)
  }

  /** Only the entry for vpn is different, and it is w. */
  ghost predicate OneEntry(mem: Memory, t: Tree, mem': Memory, t': Tree, vpn: nat, w: Word) {
    forall v: nat :: EntryAt(mem', t', v) == if v == vpn then w else EntryAt(mem, t, v)
  }

  /** f is one of the tables. */
  predicate NodeOf(t: Tree, f: Frame) {
    f == t.root || (exists i <- t.mid :: t.mid[i] == f) || (exists j <- t.low :: t.low[j] == f)
  }

  /** The tree has grown by tables from pool, if at all, and memory outside it is as it was. */
  ghost predicate Framed(mem: Memory, t: Tree, mem': Memory, t': Tree, pool: seq<Frame>) {
    && t'.root == t.root
    && (forall i <- t.mid :: i in t'.mid && t'.mid[i] == t.mid[i])
    && (forall j <- t.low :: j in t'.low && t'.low[j] == t.low[j])
    && (forall f :: f in mem && !NodeOf(t, f) ==> f in mem' && mem'[f] == mem[f])
    && (forall f :: NodeOf(t', f) ==> NodeOf(t, f) || f in pool)
  }

  lemma FramedSelf(mem: Memory, t: Tree, pool: seq<Frame>)
    ensures Framed(mem, t, mem, t, pool)
  {
  }

  lemma FramedOn(m0: Memory, t0: Tree, m1: Memory, t1: Tree, m2: Memory, t2: Tree, pool: seq<Frame>, more: seq<Frame>)
    requires Framed(m0, t0, m1, t1, pool) && Framed(m1, t1, m2, t2, more)
    requires (forall f <- pool :: f !in m0) && forall f <- more :: f in pool
    ensures Framed(m0, t0, m2, t2, pool)
  {
    hide NodeOf;
  }

  lemma MidNodes(t: Tree, i: nat, f: Frame)
    requires i !in t.mid
    ensures forall g :: NodeOf(t.(mid := t.mid[i := f]), g) ==> g == f || NodeOf(t, g)
  {
    var mid := t.mid[i := f];
    assert forall h <- mid :: h == i || (h in t.mid && t.mid[h] == mid[h]);
  }

  lemma LowNodes(t: Tree, j: nat, f: Frame)
    requires j !in t.low
    ensures forall g :: NodeOf(t.(low := t.low[j := f]), g) ==> g == f || NodeOf(t, g)
  {
    var low := t.low[j := f];
    assert forall h <- low :: h == j || (h in t.low && t.low[h] == low[h]);
  }

  function ZeroTable(): Table {
    seq(512, _ => 0)
  }

  /** Following the tree from the root is following the words. */
  lemma Descend(mem: Memory, t: Tree, vpn: nat)
    requires Good(mem, t) && vpn < 512 * 512 * 512
    ensures t.root in mem && (IsValid(mem[t.root][Px(2, vpn)]) <==> vpn / 512 / 512 in t.mid)
    ensures vpn / 512 / 512 in t.mid ==>
              var f := t.mid[vpn / 512 / 512];
              && f in mem && FrameOf(mem[t.root][Px(2, vpn)]) == f
              && (IsValid(mem[f][Px(1, vpn)]) <==> vpn / 512 in t.low)
              && (vpn / 512 in t.low ==> t.low[vpn / 512] in mem && FrameOf(mem[f][Px(1, vpn)]) == t.low[vpn / 512])
    ensures vpn / 512 in t.low ==> vpn / 512 / 512 in t.mid
  {
    var i, k := vpn / 512 / 512, vpn / 512 % 512;
    assert RootFits(mem, t, i);
    assert i * 512 + k == vpn / 512;
    if i in t.mid {
      EntryParts(t.mid[i], 1);
      assert MidFits(mem, t, i, k);
      if vpn / 512 in t.low { EntryParts(t.low[vpn / 512], 1); }
    }
  }

  // ---- what the MMU finds ----

  /** Nine bits of a virtual address: 38 to 30, 29 to 21 or 20 to 12. */
  function IndexOf(va: nat, level: nat): (i: nat)
    requires level < 3
    ensures i < 512
  {
    (if level == 2 then va / 0x4000_0000 else if level == 1 then va / 0x20_0000 else va / 0x1000) % 512
  }

  /** Sv39 translation from the table in frame a down: the leaf word, or None for a page fault. */
  function Translate(mem: Memory, a: Frame, level: nat, va: nat): Option<Word>
    requires level < 3
    decreases level
  {
    if a !in mem then None
    else
      var w := mem[a][IndexOf(va, level)];
      if !IsValid(w) then None
      else if !IsPointer(w) then Some(w)
      else if level == 0 then None
      else Translate(mem, FrameOf(w), level - 1, va)
  }

  lemma IndexIsPx(va: nat, level: nat)
    requires level < 3
    ensures IndexOf(va, level) == Px(level, va / PGSIZE)
  {
  }

  /** The hardware finds exactly the entries of the map, and no superpages. */
  lemma MmuFinds(mem: Memory, t: Tree, va: nat)
    requires Good(mem, t) && va / PGSIZE < 512 * 512 * 512
    ensures var w := EntryAt(mem, t, va / PGSIZE);
            Translate(mem, t.root, 2, va) == if IsValid(w) then Some(w) else None
  {
    hide RootFits, MidFits, LowFits, FrameOf, IsValid, IsPointer, IndexOf, Px;
    var v := va / PGSIZE;
    IndexIsPx(va, 2);
    IndexIsPx(va, 1);
    IndexIsPx(va, 0);
    Descend(mem, t, v);
    Interior(mem, t, v);
    ZeroInvalid();
    assert Px(0, v) == v % 512 by { LowIndex(v); }
    if v / 512 / 512 in t.mid {
      var m := t.mid[v / 512 / 512];
      assert Translate(mem, t.root, 2, va) == Translate(mem, m, 1, va);
      if v / 512 in t.low {
        var f := t.low[v / 512];
        assert Translate(mem, m, 1, va) == Translate(mem, f, 0, va);
        assert LowFits(mem, t, v / 512, v % 512);
        LeafFits(mem, t, v / 512, v % 512);
        assert EntryAt(mem, t, v) == mem[f][v % 512];
      }
    }
  }

  lemma ZeroInvalid()
    ensures !IsValid(0)
  {
  }

  lemma LowIndex(v: nat)
    ensures Px(0, v) == v % 512
  {
  }

  lemma LeafFits(mem: Memory, t: Tree, j: nat, k: nat)
    requires j in t.low && t.low[j] in mem && k < 512 && LowFits(mem, t, j, k)
    ensures IsValid(mem[t.low[j]][k]) ==> !IsPointer(mem[t.low[j]][k])
  {
  }

  /** The words on the way down are pointers. */
  lemma Interior(mem: Memory, t: Tree, v: nat)
    requires Good(mem, t) && v < 512 * 512 * 512
    ensures t.root in mem && (v / 512 / 512 in t.mid ==> IsPointer(mem[t.root][Px(2, v)]))
    ensures v / 512 in t.low ==>
              v / 512 / 512 in t.mid && t.mid[v / 512 / 512] in mem && IsPointer(mem[t.mid[v / 512 / 512]][Px(1, v)])
  {
    hide IsPointer, IsValid, FrameOf;
    var i, k := v / 512 / 512, v / 512 % 512;
    assert RootFits(mem, t, i);
    assert i * 512 + k == v / 512;
    if i in t.mid {
      EntryParts(t.mid[i], 1);
      assert MidFits(mem, t, i, k);
      if v / 512 in t.low { EntryParts(t.low[v / 512], 1); }
    }
  }

  // ---- what the writes do ----

  /** The root points to a new level-1 table in f. */
  ghost predicate LinkedMid(mem: Memory, t: Tree, mem': Memory, t': Tree, i: nat, f: Frame) {
    && Placed(mem, t) && Apart(mem, t) && i < 512 && i !in t.mid && f !in mem && f < FRAMES
    && mem' == mem[f := ZeroTable()][t.root := mem[t.root][i := Entry(f, 1)]] && t' == t.(mid := t.mid[i := f])
  }

  lemma AddMidShape(mem: Memory, t: Tree, mem': Memory, t': Tree, i: nat, f: Frame)
    requires LinkedMid(mem, t, mem', t', i, f)
    ensures Placed(mem', t') && Apart(mem', t')
  {
    hide Entry;
  }

  lemma AddMidRoot(mem: Memory, t: Tree, mem': Memory, t': Tree, i: nat, f: Frame, k: nat)
    requires LinkedMid(mem, t, mem', t', i, f) && k < 512 && RootFits(mem, t, k)
    ensures t'.root in mem' && RootFits(mem', t', k)
  {
    hide Entry, IsValid;
  }

  lemma AddMidMid(mem: Memory, t: Tree, mem': Memory, t': Tree, i: nat, f: Frame, g: nat, k: nat)
    requires LinkedMid(mem, t, mem', t', i, f) && g in t'.mid && k < 512
    requires g != i ==> g in t.mid && t.mid[g] in mem && MidFits(mem, t, g, k)
    ensures t'.mid[g] in mem' && MidFits(mem', t', g, k)
  {
    if g == i { assert g * 512 + k !in t.low by { assert (g * 512 + k) / 512 == g; } }
  }

  lemma AddMidLow(mem: Memory, t: Tree, mem': Memory, t': Tree, i: nat, f: Frame, j: nat, k: nat)
    requires LinkedMid(mem, t, mem', t', i, f) && j in t.low && k < 512 && t.low[j] in mem && LowFits(mem, t, j, k)
    ensures j in t'.low && t'.low[j] in mem' && LowFits(mem', t', j, k)
  {
    hide Entry, IsValid, IsPointer;
  }

  lemma AddMidEntry(mem: Memory, t: Tree, mem': Memory, t': Tree, i: nat, f: Frame, v: nat)
    requires LinkedMid(mem, t, mem', t', i, f)
    ensures EntryAt(mem', t', v) == EntryAt(mem, t, v)
  {
    hide Entry;
  }

  /** A new level-1 table. */
  lemma AddMid(mem: Memory, t: Tree, i: nat, f: Frame)
    requires Good(mem, t) && i < 512 && i !in t.mid && f !in mem && f < FRAMES
    ensures var mem' := mem[f := ZeroTable()][t.root := mem[t.root][i := Entry(f, 1)]];
      var t' := t.(mid := t.mid[i := f]);
      Good(mem', t') && SameEntries(mem, t, mem', t')
  {
    hide RootFits, MidFits, LowFits, EntryAt;
    var mem' := mem[f := ZeroTable()][t.root := mem[t.root][i := Entry(f, 1)]];
    var t' := t.(mid := t.mid[i := f]);
    AddMidShape(mem, t, mem', t', i, f);
    forall k | 0 <= k < 512 ensures RootFits(mem', t', k) {
      assert RootFits(mem, t, k);
      AddMidRoot(mem, t, mem', t', i, f, k);
    }
    forall g, k | g in t'.mid && 0 <= k < 512 ensures MidFits(mem', t', g, k) {
      if g != i { assert MidFits(mem, t, g, k); }
      AddMidMid(mem, t, mem', t', i, f, g, k);
    }
    forall j, k | j in t'.low && 0 <= k < 512 ensures LowFits(mem', t', j, k) {
      assert LowFits(mem, t, j, k);
      AddMidLow(mem, t, mem', t', i, f, j, k);
    }
    forall v: nat ensures EntryAt(mem', t', v) == EntryAt(mem, t, v) { AddMidEntry(mem, t, mem', t', i, f, v); }
  }

  /** Memory with f as a new level-0 table, for the pages whose numbers divided by 512 give j. */
  function WithLow(mem: Memory, m: Frame, j: nat, f: Frame): Memory
    requires m in mem && f < FRAMES
  {
    mem[f := ZeroTable()][m := mem[m][j % 512 := Entry(f, 1)]]
  }

  lemma AddLow(mem: Memory, t: Tree, j: nat, f: Frame)
    requires Good(mem, t) && j / 512 in t.mid && j !in t.low && f !in mem && f < FRAMES
    ensures t.mid[j / 512] in mem
    ensures var mem' := WithLow(mem, t.mid[j / 512], j, f); var t' := t.(low := t.low[j := f]);
      Good(mem', t') && SameEntries(mem, t, mem', t')
  {
    hide RootFits, MidFits, LowFits, WithLow, EntryAt;
    var mem', t' := WithLow(mem, t.mid[j / 512], j, f), t.(low := t.low[j := f]);
    AddLowShape(mem, t, j, f);
    forall k | 0 <= k < 512 ensures RootFits(mem', t', k) {
      assert RootFits(mem, t, k);
      AddLowRoot(mem, t, j, f, k);
    }
    forall g, k | g in t'.mid && 0 <= k < 512 ensures MidFits(mem', t', g, k) {
      assert MidFits(mem, t, g, k);
      AddLowMid(mem, t, j, f, g, k);
    }
    forall h, k | h in t'.low && 0 <= k < 512 ensures LowFits(mem', t', h, k) {
      if h != j { assert LowFits(mem, t, h, k); }
      AddLowLow(mem, t, j, f, h, k);
    }
    forall v: nat ensures EntryAt(mem', t', v) == EntryAt(mem, t, v) { AddLowEntry(mem, t, j, f, v); }
  }

  lemma AddLowShape(mem: Memory, t: Tree, j: nat, f: Frame)
    requires Placed(mem, t) && Apart(mem, t) && j / 512 in t.mid && j !in t.low && f !in mem && f < FRAMES
    ensures var mem' := WithLow(mem, t.mid[j / 512], j, f); var t' := t.(low := t.low[j := f]);
            Placed(mem', t') && Apart(mem', t')
  {
  }

  lemma AddLowRoot(mem: Memory, t: Tree, j: nat, f: Frame, k: nat)
    requires Placed(mem, t) && Apart(mem, t) && j / 512 in t.mid && f !in mem && f < FRAMES && k < 512
    requires RootFits(mem, t, k)
    ensures t.root in WithLow(mem, t.mid[j / 512], j, f)
    ensures RootFits(WithLow(mem, t.mid[j / 512], j, f), t.(low := t.low[j := f]), k)
  {
  }

  lemma AddLowMid(mem: Memory, t: Tree, j: nat, f: Frame, g: nat, k: nat)
    requires Placed(mem, t) && Apart(mem, t) && j / 512 in t.mid && j !in t.low && f !in mem && f < FRAMES
    requires g in t.mid && k < 512 && MidFits(mem, t, g, k)
    ensures t.mid[g] in WithLow(mem, t.mid[j / 512], j, f)
    ensures MidFits(WithLow(mem, t.mid[j / 512], j, f), t.(low := t.low[j := f]), g, k)
  {
    hide Entry, IsValid;
    if g * 512 + k == j { assert g == j / 512 && k == j % 512; }
    if g == j / 512 && k == j % 512 { assert g * 512 + k == j; }
  }

  lemma AddLowLow(mem: Memory, t: Tree, j: nat, f: Frame, h: nat, k: nat)
    requires Placed(mem, t) && Apart(mem, t) && j / 512 in t.mid && j !in t.low && f !in mem && f < FRAMES && k < 512
    requires h == j || (h in t.low && LowFits(mem, t, h, k))
    ensures var t' := t.(low := t.low[j := f]); var mem' := WithLow(mem, t.mid[j / 512], j, f);
      h in t'.low && t'.low[h] in mem' && LowFits(mem', t', h, k)
  {
  }

  lemma AddLowEntry(mem: Memory, t: Tree, j: nat, f: Frame, v: nat)
    requires Placed(mem, t) && Apart(mem, t) && j / 512 in t.mid && j !in t.low && f !in mem && f < FRAMES
    ensures EntryAt(WithLow(mem, t.mid[j / 512], j, f), t.(low := t.low[j := f]), v) == EntryAt(mem, t, v)
  {
    hide Entry;
  }

  /** A word of a level-0 table. */
  lemma SetLow(mem: Memory, t: Tree, vpn: nat, w: Word)
    requires Good(mem, t) && vpn / 512 in t.low && (IsValid(w) ==> !IsPointer(w))
    ensures t.low[vpn / 512] in mem
    ensures var f := t.low[vpn / 512];
      var mem' := mem[f := mem[f][vpn % 512 := w]];
      Good(mem', t) && OneEntry(mem, t, mem', t, vpn, w)
  {
    var f := t.low[vpn / 512];
    var mem' := mem[f := mem[f][vpn % 512 := w]];
    forall k | 0 <= k < 512 ensures RootFits(mem', t, k) { assert RootFits(mem, t, k); }
    forall g, k | g in t.mid && 0 <= k < 512 ensures MidFits(mem', t, g, k) { assert MidFits(mem, t, g, k); }
    forall h, k | h in t.low && 0 <= k < 512 ensures LowFits(mem', t, h, k) { assert LowFits(mem, t, h, k); }
    forall v: nat ensures EntryAt(mem', t, v) == if v == vpn then w else EntryAt(mem, t, v) {
      if v / 512 == vpn / 512 && v % 512 == vpn % 512 { assert v == vpn; }
    }
  }
}
