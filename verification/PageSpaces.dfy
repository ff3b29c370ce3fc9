/**
Page tables of several processes in one memory, and the two maps the copy-on-write model works with: the
leaf entries by process and page, and the frames of the tables. Each change CowMemory makes to its maps is
one word written into the tree of one process, and the maps go on saying what is in memory.
*/
module PageSpaces {
  import opened Wrappers
  import opened PageTree
  import opened PageEntries
  import R = PageRefs
  import C = CowMemory

  /** mem: the frames that are page-table pages; trees: where the tables of each process are. */
  datatype Spaces = Spaces(mem: Memory, trees: map<R.Pid, Tree>)

  ghost predicate TreesApart(trees: map<R.Pid, Tree>) {
    forall p, q, f :: p in trees && q in trees && p != q && NodeOf(trees[p], f) ==> !NodeOf(trees[q], f)
  }

  /** The table map names the frames of this tree, counted from the first managed page, and no others for p. */
  ghost predicate HasTables(base: Frame, p: R.Pid, t: Tree, tables: R.Tables) {
    && R.Table(p, 2, 0) in tables && base + tables[R.Table(p, 2, 0)] == t.root
    && (forall i: nat :: R.Table(p, 1, i) in tables <==> i in t.mid)
    && (forall i <- t.mid :: R.Table(p, 1, i) in tables && base + tables[R.Table(p, 1, i)] == t.mid[i])
    && (forall j: nat :: R.Table(p, 0, j) in tables <==> j in t.low)
    && (forall j <- t.low :: R.Table(p, 0, j) in tables && base + tables[R.Table(p, 0, j)] == t.low[j])
  }

  /** Below the trapframe page, walking the tree finds the entries of the map and no others. */
  ghost predicate HasLeaves(base: Frame, mem: Memory, p: R.Pid, t: Tree, ptes: R.Ptes) {
    forall v: nat :: v < C.TRAPFRAME_VPN ==>
      Leaf(base, mem, t, v) == if R.Key(p, v) in ptes then Some(ptes[R.Key(p, v)]) else None
  }

  ghost predicate Space(base: Frame, mem: Memory, p: R.Pid, t: Tree, ptes: R.Ptes, tables: R.Tables) {
    Good(mem, t) && HasTables(base, p, t, tables) && HasLeaves(base, mem, p, t, ptes)
  }

  ghost predicate Represents(base: Frame, s: Spaces, ptes: R.Ptes, tables: R.Tables) {
    && TreesApart(s.trees) && (forall f <- s.mem :: f < FRAMES)
    && (forall p: R.Pid :: R.Table(p, 2, 0) in tables <==> p in s.trees)
    && (forall k <- ptes :: k.pid in s.trees && k.vpn < C.TRAPFRAME_VPN)
    && forall p <- s.trees :: Space(base, s.mem, p, s.trees[p], ptes, tables)
  }

  // ---- a tree whose frames nobody touches ----

  ghost predicate Agree(mem: Memory, mem': Memory, t: Tree) {
    (forall f :: NodeOf(t, f) && f in mem ==> f in mem' && mem'[f] == mem[f]) && forall f <- mem' :: f < FRAMES
  }

  lemma RootIsNode(t: Tree)
    ensures NodeOf(t, t.root)
    ensures forall i <- t.mid :: NodeOf(t, t.mid[i])
    ensures forall j <- t.low :: NodeOf(t, t.low[j])
  {
  }

  lemma AgreeGood(mem: Memory, mem': Memory, t: Tree)
    requires Good(mem, t) && Agree(mem, mem', t)
    ensures Good(mem', t) && SameEntries(mem, t, mem', t)
  {
    hide RootFits, MidFits, LowFits, EntryAt, NodeOf;
    RootIsNode(t);
    forall i | 0 <= i < 512 ensures RootFits(mem', t, i) { assert RootFits(mem, t, i); RootSame(mem, mem', t, i); }
    forall i, k | i in t.mid && 0 <= k < 512 ensures MidFits(mem', t, i, k) {
      assert MidFits(mem, t, i, k);
      MidSame(mem, mem', t, i, k);
    }
    forall j, k | j in t.low && 0 <= k < 512 ensures LowFits(mem', t, j, k) {
      assert LowFits(mem, t, j, k);
      LowSame(mem, mem', t, j, k);
    }
    forall v: nat ensures EntryAt(mem', t, v) == EntryAt(mem, t, v) { EntrySame(mem, mem', t, v); }
  }

  lemma RootSame(mem: Memory, mem': Memory, t: Tree, i: nat)
    requires t.root in mem && t.root in mem' && mem'[t.root] == mem[t.root] && i < 512 && RootFits(mem, t, i)
    ensures RootFits(mem', t, i)
  {
  }

  lemma MidSame(mem: Memory, mem': Memory, t: Tree, i: nat, k: nat)
    requires i in t.mid && t.mid[i] in mem && t.mid[i] in mem' && mem'[t.mid[i]] == mem[t.mid[i]] && k < 512
    requires MidFits(mem, t, i, k)
    ensures MidFits(mem', t, i, k)
  {
  }

  lemma LowSame(mem: Memory, mem': Memory, t: Tree, j: nat, k: nat)
    requires j in t.low && t.low[j] in mem && t.low[j] in mem' && mem'[t.low[j]] == mem[t.low[j]] && k < 512
    requires LowFits(mem, t, j, k)
    ensures LowFits(mem', t, j, k)
  {
  }

  lemma EntrySame(mem: Memory, mem': Memory, t: Tree, v: nat)
    requires forall j <- t.low :: t.low[j] in mem && t.low[j] in mem' && mem'[t.low[j]] == mem[t.low[j]]
    ensures EntryAt(mem', t, v) == EntryAt(mem, t, v)
  {
  }

  /** The space of a process across a change to another one's. */
  lemma OtherSpace(base: Frame, mem: Memory, mem': Memory, q: R.Pid, t: Tree, ptes: R.Ptes, ptes': R.Ptes,
                   tables: R.Tables, tables': R.Tables)
    requires Space(base, mem, q, t, ptes, tables) && Agree(mem, mem', t)
    requires forall v: nat :: (R.Key(q, v) in ptes' <==> R.Key(q, v) in ptes)
    requires forall v: nat :: R.Key(q, v) in ptes ==> R.Key(q, v) in ptes' && ptes'[R.Key(q, v)] == ptes[R.Key(q, v)]
    requires forall l: nat, i: nat :: (R.Table(q, l, i) in tables' <==> R.Table(q, l, i) in tables)
    requires forall l: nat, i: nat :: R.Table(q, l, i) in tables ==>
               R.Table(q, l, i) in tables' && tables'[R.Table(q, l, i)] == tables[R.Table(q, l, i)]
    ensures Space(base, mem', q, t, ptes', tables')
  {
    hide Good, Decode, IsValid, FrameOf, EntryAt, NodeOf;
    AgreeGood(mem, mem', t);
    forall v: nat | v < C.TRAPFRAME_VPN
      ensures Leaf(base, mem', t, v) == if R.Key(q, v) in ptes' then Some(ptes'[R.Key(q, v)]) else None
    {
      assert EntryAt(mem', t, v) == EntryAt(mem, t, v);
      assert Leaf(base, mem, t, v) == if R.Key(q, v) in ptes then Some(ptes[R.Key(q, v)]) else None;
    }
  }

  // ---- one entry ----

  /** The word of page v of p is written. */
  function Written(s: Spaces, p: R.Pid, v: nat, w: Word): Spaces
    requires p in s.trees && v / 512 in s.trees[p].low && s.trees[p].low[v / 512] in s.mem
  {
    var f := s.trees[p].low[v / 512];
    s.(mem := s.mem[f := s.mem[f][v % 512 := w]])
  }

  lemma InMemory(base: Frame, s: Spaces, ptes: R.Ptes, tables: R.Tables, p: R.Pid, v: nat)
    requires Represents(base, s, ptes, tables) && R.Table(p, 0, v / 512) in tables && p in s.trees
    ensures v / 512 in s.trees[p].low && s.trees[p].low[v / 512] in s.mem
  {
    hide RootFits, MidFits, LowFits, HasLeaves, NodeOf;
    assert Space(base, s.mem, p, s.trees[p], ptes, tables);
  }

  lemma OthersAgree(s: Spaces, p: R.Pid, f: Frame, mem': Memory, q: R.Pid)
    requires TreesApart(s.trees) && p in s.trees && q in s.trees && p != q && NodeOf(s.trees[p], f)
    requires forall g :: g != f && g in s.mem ==> g in mem' && mem'[g] == s.mem[g]
    requires forall g <- mem' :: g < FRAMES
    ensures Agree(s.mem, mem', s.trees[q])
  {
    hide NodeOf;
  }

  /** A leaf entry is written; CowMemory's AddLeaf, and the changes uvmcopy and cow_page_fault make. */
  lemma LeafWritten(base: Frame, s: Spaces, ptes: R.Ptes, tables: R.Tables, p: R.Pid, v: nat, e: R.Pte)
    requires Represents(base, s, ptes, tables) && p in s.trees && R.Table(p, 0, v / 512) in tables
    requires v < C.TRAPFRAME_VPN && base + e.frame < FRAMES && (e.r || e.w || e.x)
    ensures v / 512 in s.trees[p].low && s.trees[p].low[v / 512] in s.mem
    ensures Represents(base, Written(s, p, v, Encode(base, e)), ptes[R.Key(p, v) := e], tables)
  {
    hide Good, Space, Encode, NodeOf, SameEntries, OneEntry, HasTables, HasLeaves;
    InMemory(base, s, ptes, tables, p, v);
    LeafEncoded(base, e);
    var s', ptes' := Written(s, p, v, Encode(base, e)), ptes[R.Key(p, v) := e];
    var f := s.trees[p].low[v / 512];
    RootIsNode(s.trees[p]);
    forall q | q in s'.trees ensures Space(base, s'.mem, q, s'.trees[q], ptes', tables) {
      assert Space(base, s.mem, q, s.trees[q], ptes, tables);
      if q == p {
        OwnWritten(base, s.mem, p, s.trees[p], ptes, tables, v, e);
      } else {
        OthersAgree(s, p, f, s'.mem, q);
        OtherSpace(base, s.mem, s'.mem, q, s.trees[q], ptes, ptes', tables, tables);
      }
    }
  }

  lemma LeafEncoded(base: Frame, e: R.Pte)
    requires base + e.frame < FRAMES && (e.r || e.w || e.x)
    ensures IsValid(Encode(base, e)) && !IsPointer(Encode(base, e))
  {
    EntryParts(base + e.frame, Flags(e));
  }

  lemma OwnWritten(base: Frame, mem: Memory, p: R.Pid, t: Tree, ptes: R.Ptes, tables: R.Tables, v: nat, e: R.Pte)
    requires Space(base, mem, p, t, ptes, tables) && v / 512 in t.low && t.low[v / 512] in mem
    requires base + e.frame < FRAMES && !IsPointer(Encode(base, e))
    ensures var f := t.low[v / 512];
            Space(base, mem[f := mem[f][v % 512 := Encode(base, e)]], p, t, ptes[R.Key(p, v) := e], tables)
  {
    hide Good, Encode, Leaf, SameEntries, OneEntry, IsPointer, IsValid, HasTables;
    var f := t.low[v / 512];
    var mem' := mem[f := mem[f][v % 512 := Encode(base, e)]];
    SetLow(mem, t, v, Encode(base, e));
    forall u: nat | u < C.TRAPFRAME_VPN
      ensures Leaf(base, mem', t, u) ==
              if R.Key(p, u) in ptes[R.Key(p, v) := e] then Some(ptes[R.Key(p, v) := e][R.Key(p, u)]) else None
    {
      OneLeaf(base, mem, t, mem', t, v, e, u);
    }
  }

  /** A leaf entry is cleared; CowMemory's DropLeaf. */
  lemma LeafCleared(base: Frame, s: Spaces, ptes: R.Ptes, tables: R.Tables, p: R.Pid, v: nat)
    requires Represents(base, s, ptes, tables) && p in s.trees && R.Table(p, 0, v / 512) in tables && base < FRAMES
    ensures v / 512 in s.trees[p].low && s.trees[p].low[v / 512] in s.mem
    ensures Represents(base, Written(s, p, v, 0), ptes - {R.Key(p, v)}, tables)
  {
    hide Good, Space, NodeOf, SameEntries, OneEntry, HasTables, HasLeaves;
    InMemory(base, s, ptes, tables, p, v);
    var s', ptes' := Written(s, p, v, 0), ptes - {R.Key(p, v)};
    var f := s.trees[p].low[v / 512];
    RootIsNode(s.trees[p]);
    forall q | q in s'.trees ensures Space(base, s'.mem, q, s'.trees[q], ptes', tables) {
      assert Space(base, s.mem, q, s.trees[q], ptes, tables);
      if q == p {
        OwnCleared(base, s.mem, p, s.trees[p], ptes, tables, v);
      } else {
        OthersAgree(s, p, f, s'.mem, q);
        OtherSpace(base, s.mem, s'.mem, q, s.trees[q], ptes, ptes', tables, tables);
      }
    }
  }

  lemma OwnCleared(base: Frame, mem: Memory, p: R.Pid, t: Tree, ptes: R.Ptes, tables: R.Tables, v: nat)
    requires Space(base, mem, p, t, ptes, tables) && v / 512 in t.low && t.low[v / 512] in mem && base < FRAMES
    ensures var f := t.low[v / 512];
            Space(base, mem[f := mem[f][v % 512 := 0]], p, t, ptes - {R.Key(p, v)}, tables)
  {
    hide Good, Leaf, SameEntries, OneEntry, IsPointer, HasTables;
    var f := t.low[v / 512];
    var mem' := mem[f := mem[f][v % 512 := 0]];
    SetLow(mem, t, v, 0);
    forall u: nat | u < C.TRAPFRAME_VPN
      ensures Leaf(base, mem', t, u) ==
              if R.Key(p, u) in (ptes - {R.Key(p, v)}) then Some((ptes - {R.Key(p, v)})[R.Key(p, u)]) else None
    {
      OneLeaf(base, mem, t, mem', t, v, R.Pte(0, false, false, false, false, false), u);
    }
  }

  // ---- one table ----

  /** A zeroed page in f becomes the i-th level-1 table of p. */
  function WithMidOf(s: Spaces, p: R.Pid, i: nat, f: Frame): Spaces
    requires p in s.trees && s.trees[p].root in s.mem && i < 512 && f < FRAMES
  {
    var t := s.trees[p];
    Spaces(s.mem[f := ZeroTable()][t.root := s.mem[t.root][i := Entry(f, 1)]], s.trees[p := t.(mid := t.mid[i := f])])
  }

  /** A zeroed page in f becomes the table of the pages j * 512 to j * 512 + 511 of p. */
  function WithLowOf(s: Spaces, p: R.Pid, j: nat, f: Frame): Spaces
    requires p in s.trees && j / 512 in s.trees[p].mid && s.trees[p].mid[j / 512] in s.mem && f < FRAMES
  {
    var t := s.trees[p];
    Spaces(WithLow(s.mem, t.mid[j / 512], j, f), s.trees[p := t.(low := t.low[j := f])])
  }

  /** A frame outside mem is in no tree, and stays apart from the others when one tree takes it. */
  lemma MoreApart(s: Spaces, p: R.Pid, t: Tree, f: Frame)
    requires TreesApart(s.trees) && p in s.trees
    requires (forall q, g :: q in s.trees && NodeOf(s.trees[q], g) ==> g in s.mem)
    requires f !in s.mem && forall g :: NodeOf(t, g) ==> g == f || NodeOf(s.trees[p], g)
    ensures TreesApart(s.trees[p := t])
  {
    hide NodeOf;
  }

  lemma NodesInMemory(mem: Memory, t: Tree)
    requires Good(mem, t)
    ensures forall g :: NodeOf(t, g) ==> g in mem
  {
    hide RootFits, MidFits, LowFits;
  }

  lemma AllInMemory(base: Frame, s: Spaces, ptes: R.Ptes, tables: R.Tables)
    requires Represents(base, s, ptes, tables)
    ensures forall q, g :: q in s.trees && NodeOf(s.trees[q], g) ==> g in s.mem
  {
    hide Good, NodeOf, HasTables, HasLeaves;
    forall q, g | q in s.trees && NodeOf(s.trees[q], g) ensures g in s.mem {
      assert Space(base, s.mem, q, s.trees[q], ptes, tables);
      NodesInMemory(s.mem, s.trees[q]);
    }
  }

  /** A level-1 table is linked in; CowMemory's NewTable at level 1. */
  lemma MidLinked(base: Frame, s: Spaces, ptes: R.Ptes, tables: R.Tables, p: R.Pid, i: nat, f: Frame)
    requires Represents(base, s, ptes, tables) && p in s.trees && R.Table(p, 1, i) !in tables && i < 512
    requires f !in s.mem && base <= f < FRAMES
    ensures s.trees[p].root in s.mem
    ensures Represents(base, WithMidOf(s, p, i, f), ptes, tables[R.Table(p, 1, i) := f - base])
  {
    hide Good, Space, NodeOf, SameEntries, Entry, HasTables, HasLeaves, Agree, WithMidOf;
    var t := s.trees[p];
    var tables' := tables[R.Table(p, 1, i) := f - base];
    assert Space(base, s.mem, p, t, ptes, tables);
    OwnMid(base, s, p, ptes, tables, i, f);
    var s' := WithMidOf(s, p, i, f);
    AllInMemory(base, s, ptes, tables);
    MoreApart(s, p, s'.trees[p], f);
    forall q | q in s'.trees ensures Space(base, s'.mem, q, s'.trees[q], ptes, tables') {
      if q != p {
        assert Space(base, s.mem, q, s.trees[q], ptes, tables);
        MidAgree(s, p, i, f, q);
        OtherSpace(base, s.mem, s'.mem, q, s.trees[q], ptes, ptes, tables, tables');
      }
    }
  }

  lemma MidPlace(base: Frame, s: Spaces, p: R.Pid, ptes: R.Ptes, tables: R.Tables, i: nat)
    requires p in s.trees && Space(base, s.mem, p, s.trees[p], ptes, tables) && R.Table(p, 1, i) !in tables
    ensures s.trees[p].root in s.mem && i !in s.trees[p].mid
  {
    hide RootFits, MidFits, LowFits, HasLeaves;
  }

  lemma MidTables(base: Frame, p: R.Pid, t: Tree, tables: R.Tables, i: nat, f: Frame)
    requires HasTables(base, p, t, tables) && base <= f && i !in t.mid
    ensures HasTables(base, p, t.(mid := t.mid[i := f]), tables[R.Table(p, 1, i) := f - base])
  {
  }

  lemma OwnMid(base: Frame, s: Spaces, p: R.Pid, ptes: R.Ptes, tables: R.Tables, i: nat, f: Frame)
    requires p in s.trees && Space(base, s.mem, p, s.trees[p], ptes, tables) && R.Table(p, 1, i) !in tables && i < 512
    requires f !in s.mem && base <= f < FRAMES && forall g <- s.mem :: g < FRAMES
    ensures s.trees[p].root in s.mem
    ensures var s' := WithMidOf(s, p, i, f);
      && s'.trees == s.trees[p := s'.trees[p]] && (forall g <- s'.mem :: g < FRAMES)
      && (forall g :: NodeOf(s'.trees[p], g) ==> g == f || NodeOf(s.trees[p], g))
      && Space(base, s'.mem, p, s'.trees[p], ptes, tables[R.Table(p, 1, i) := f - base])
  {
    hide Leaf, RootFits, MidFits, LowFits, NodeOf, SameEntries, Entry, HasTables, Good, PageTree.Placed, PageTree.Apart;
    MidPlace(base, s, p, ptes, tables, i);
    AddMid(s.mem, s.trees[p], i, f);
    MidNodes(s.trees[p], i, f);
    MidTables(base, p, s.trees[p], tables, i, f);
    var s' := WithMidOf(s, p, i, f);
    forall v: nat ensures Leaf(base, s'.mem, s'.trees[p], v) == Leaf(base, s.mem, s.trees[p], v) {
      SameLeaf(base, s.mem, s.trees[p], s'.mem, s'.trees[p], v);
    }
  }

  lemma SameLeaf(base: Frame, mem: Memory, t: Tree, mem': Memory, t': Tree, v: nat)
    requires SameEntries(mem, t, mem', t')
    ensures Leaf(base, mem', t', v) == Leaf(base, mem, t, v)
  {
    hide Decode, IsValid, FrameOf, EntryAt;
    assert EntryAt(mem', t', v) == EntryAt(mem, t, v);
  }

  lemma MidAgree(s: Spaces, p: R.Pid, i: nat, f: Frame, q: R.Pid)
    requires TreesApart(s.trees) && p in s.trees && q in s.trees && p != q && s.trees[p].root in s.mem && i < 512
    requires f !in s.mem && f < FRAMES && forall g <- s.mem :: g < FRAMES
    ensures Agree(s.mem, WithMidOf(s, p, i, f).mem, s.trees[q])
  {
    hide NodeOf, Entry;
    RootIsNode(s.trees[p]);
  }

  /** A level-0 table is linked in; CowMemory's NewTable at level 0. */
  lemma LowLinked(base: Frame, s: Spaces, ptes: R.Ptes, tables: R.Tables, p: R.Pid, j: nat, f: Frame)
    requires Represents(base, s, ptes, tables) && p in s.trees && R.Table(p, 0, j) !in tables
    requires R.Table(p, 1, j / 512) in tables && f !in s.mem && base <= f < FRAMES
    ensures j / 512 in s.trees[p].mid && s.trees[p].mid[j / 512] in s.mem
    ensures Represents(base, WithLowOf(s, p, j, f), ptes, tables[R.Table(p, 0, j) := f - base])
  {
    hide Good, Space, NodeOf, SameEntries, Entry, HasTables, HasLeaves, Agree, WithLowOf;
    var t := s.trees[p];
    var tables' := tables[R.Table(p, 0, j) := f - base];
    assert Space(base, s.mem, p, t, ptes, tables);
    OwnLow(base, s, p, ptes, tables, j, f);
    var s' := WithLowOf(s, p, j, f);
    AllInMemory(base, s, ptes, tables);
    MoreApart(s, p, s'.trees[p], f);
    forall q | q in s'.trees ensures Space(base, s'.mem, q, s'.trees[q], ptes, tables') {
      if q != p {
        assert Space(base, s.mem, q, s.trees[q], ptes, tables);
        LowAgree(s, p, j, f, q);
        OtherSpace(base, s.mem, s'.mem, q, s.trees[q], ptes, ptes, tables, tables');
      }
    }
  }

  lemma LowPlace(base: Frame, s: Spaces, p: R.Pid, ptes: R.Ptes, tables: R.Tables, j: nat)
    requires p in s.trees && Space(base, s.mem, p, s.trees[p], ptes, tables) && R.Table(p, 0, j) !in tables
    requires R.Table(p, 1, j / 512) in tables
    ensures j / 512 in s.trees[p].mid && s.trees[p].mid[j / 512] in s.mem && j !in s.trees[p].low
  {
    hide RootFits, MidFits, LowFits, HasLeaves;
  }

  lemma LowTables(base: Frame, p: R.Pid, t: Tree, tables: R.Tables, j: nat, f: Frame)
    requires HasTables(base, p, t, tables) && base <= f && j !in t.low
    ensures HasTables(base, p, t.(low := t.low[j := f]), tables[R.Table(p, 0, j) := f - base])
  {
  }

  lemma OwnLow(base: Frame, s: Spaces, p: R.Pid, ptes: R.Ptes, tables: R.Tables, j: nat, f: Frame)
    requires p in s.trees && Space(base, s.mem, p, s.trees[p], ptes, tables) && R.Table(p, 0, j) !in tables
    requires R.Table(p, 1, j / 512) in tables
    requires f !in s.mem && base <= f < FRAMES && forall g <- s.mem :: g < FRAMES
    ensures j / 512 in s.trees[p].mid && s.trees[p].mid[j / 512] in s.mem
    ensures var s' := WithLowOf(s, p, j, f);
      && s'.trees == s.trees[p := s'.trees[p]] && (forall g <- s'.mem :: g < FRAMES)
      && (forall g :: NodeOf(s'.trees[p], g) ==> g == f || NodeOf(s.trees[p], g))
      && Space(base, s'.mem, p, s'.trees[p], ptes, tables[R.Table(p, 0, j) := f - base])
  {
    hide Leaf, RootFits, MidFits, LowFits, NodeOf, SameEntries, Entry, HasTables, Good, PageTree.Placed, PageTree.Apart;
    LowPlace(base, s, p, ptes, tables, j);
    AddLow(s.mem, s.trees[p], j, f);
    LowNodes(s.trees[p], j, f);
    LowTables(base, p, s.trees[p], tables, j, f);
    var s' := WithLowOf(s, p, j, f);
    forall v: nat ensures Leaf(base, s'.mem, s'.trees[p], v) == Leaf(base, s.mem, s.trees[p], v) {
      SameLeaf(base, s.mem, s.trees[p], s'.mem, s'.trees[p], v);
    }
  }

  lemma LowAgree(s: Spaces, p: R.Pid, j: nat, f: Frame, q: R.Pid)
    requires TreesApart(s.trees) && p in s.trees && q in s.trees && p != q
    requires j / 512 in s.trees[p].mid && s.trees[p].mid[j / 512] in s.mem
    requires f !in s.mem && f < FRAMES && forall g <- s.mem :: g < FRAMES
    ensures Agree(s.mem, WithLowOf(s, p, j, f).mem, s.trees[q])
  {
    hide NodeOf, Entry;
    RootIsNode(s.trees[p]);
  }

  // ---- a new page table ----

  lemma EmptyGood(mem: Memory, f: Frame)
    requires f in mem && mem[f] == ZeroTable() && forall g <- mem :: g < FRAMES
    ensures Good(mem, Tree(f, map[], map[])) && forall v :: EntryAt(mem, Tree(f, map[], map[]), v) == 0
  {
  }

  /** The root of a new process, in a zeroed page; CowMemory's CreatePageTable before mappages. */
  lemma RootMade(base: Frame, s: Spaces, ptes: R.Ptes, tables: R.Tables, p: R.Pid, f: Frame)
    requires Represents(base, s, ptes, tables) && p !in s.trees && f !in s.mem && base <= f < FRAMES
    requires (forall k <- ptes :: k.pid != p) && forall l: nat, i: nat :: R.Table(p, l, i) !in tables
    ensures Represents(base, Spaces(s.mem[f := ZeroTable()], s.trees[p := Tree(f, map[], map[])]), ptes,
                       tables[R.Table(p, 2, 0) := f - base])
  {
    hide Good, Space, NodeOf, HasLeaves, HasTables, Agree;
    var t := Tree(f, map[], map[]);
    var s', tables' := Spaces(s.mem[f := ZeroTable()], s.trees[p := t]), tables[R.Table(p, 2, 0) := f - base];
    AllInMemory(base, s, ptes, tables);
    RootApart(s, p, f);
    OwnRoot(base, s'.mem, p, f, ptes, tables);
    forall q | q in s'.trees ensures Space(base, s'.mem, q, s'.trees[q], ptes, tables') {
      if q != p {
        assert Space(base, s.mem, q, s.trees[q], ptes, tables);
        NewAgree(s.mem, f, s.trees[q]);
        OtherSpace(base, s.mem, s'.mem, q, s.trees[q], ptes, ptes, tables, tables');
      }
    }
  }

  lemma RootApart(s: Spaces, p: R.Pid, f: Frame)
    requires TreesApart(s.trees) && p !in s.trees && f !in s.mem
    requires forall q, g :: q in s.trees && NodeOf(s.trees[q], g) ==> g in s.mem
    ensures TreesApart(s.trees[p := Tree(f, map[], map[])])
  {
    assert forall g :: NodeOf(Tree(f, map[], map[]), g) ==> g == f;
    hide NodeOf;
  }

  lemma NewAgree(mem: Memory, f: Frame, t: Tree)
    requires f !in mem && f < FRAMES && forall g <- mem :: g < FRAMES
    ensures Agree(mem, mem[f := ZeroTable()], t)
  {
  }

  lemma OwnRoot(base: Frame, mem: Memory, p: R.Pid, f: Frame, ptes: R.Ptes, tables: R.Tables)
    requires f in mem && mem[f] == ZeroTable() && base <= f && forall g <- mem :: g < FRAMES
    requires (forall k <- ptes :: k.pid != p) && forall l: nat, i: nat :: R.Table(p, l, i) !in tables
    ensures Space(base, mem, p, Tree(f, map[], map[]), ptes, tables[R.Table(p, 2, 0) := f - base])
  {
    hide Good, Decode, FrameOf, EntryAt;
    EmptyGood(mem, f);
  }

  /** freewalk has freed the tables of a process. */
  ghost function Dropped(s: Spaces, p: R.Pid): Spaces
    requires p in s.trees
  {
    Spaces(map f | f in s.mem && !NodeOf(s.trees[p], f) :: s.mem[f], s.trees - {p})
  }

  function TablesDropped(tables: R.Tables, p: R.Pid): R.Tables {
    map t | t in tables && !(t.Table? && t.pid == p) :: tables[t]
  }

  lemma TreeDropped(base: Frame, s: Spaces, ptes: R.Ptes, tables: R.Tables, p: R.Pid)
    requires Represents(base, s, ptes, tables) && p in s.trees && forall k <- ptes :: k.pid != p
    ensures Represents(base, Dropped(s, p), ptes, TablesDropped(tables, p))
  {
    hide Good, Space, NodeOf, HasTables, HasLeaves;
    var s', tables' := Dropped(s, p), TablesDropped(tables, p);
    forall q | q in s'.trees ensures Space(base, s'.mem, q, s'.trees[q], ptes, tables') {
      assert Space(base, s.mem, q, s.trees[q], ptes, tables);
      OtherSpace(base, s.mem, s'.mem, q, s.trees[q], ptes, ptes, tables, tables');
    }
  }
}
