/**
walk, walkaddr, mappages, uvmunmap and freewalk of kernel/vm.c over the words of one page table. For a
caller they act on the map from page number to entry; the interior tables do not show.
*/
module PageTable {
  import opened Sequences
  import opened Wrappers
  import opened PageTree

  /** Where mappages or uvmunmap got to: the end, a failed kalloc, or a panic. */
  datatype Outcome = Complete | NoMemory | Panic

  /** What is written into a run of entries: mappings of successive frames, or nothing. */
  datatype Change = Map(frame: Frame, perm: nat) | Unmap

  /** The k-th entry written. */
  function NewEntry(c: Change, k: nat): Word {
    if c.Map? && c.perm < 1024 && c.frame + k < FRAMES then Entry(c.frame + k, WithV(c.perm)) else 0
  }

  /** The n entries from first on are those that c writes; no other has changed. */
  ghost predicate Rewritten(mem: Memory, t: Tree, mem': Memory, t': Tree, first: nat, n: nat, c: Change) {
    forall v: nat :: EntryAt(mem', t', v) ==
        if first <= v < first + n then NewEntry(c, v - first) else EntryAt(mem, t, v)
  }

  lemma RewrittenNone(mem: Memory, t: Tree, first: nat, c: Change)
    ensures Rewritten(mem, t, mem, t, first, 0, c)
  {
  }

  lemma RewrittenSame(mem: Memory, t: Tree, m1: Memory, t1: Tree, m2: Memory, t2: Tree, first: nat, n: nat, c: Change)
    requires Rewritten(mem, t, m1, t1, first, n, c) && SameEntries(m1, t1, m2, t2)
    ensures Rewritten(mem, t, m2, t2, first, n, c)
  {
  }

  lemma RewrittenNext(mem: Memory, t: Tree, m1: Memory, t1: Tree, m2: Memory, t2: Tree, first: nat, n: nat, c: Change)
    requires Rewritten(mem, t, m1, t1, first, n, c) && OneEntry(m1, t1, m2, t2, first + n, NewEntry(c, n))
    ensures Rewritten(mem, t, m2, t2, first, n + 1, c)
  {
  }

  lemma EntryIn(mem: Memory, t: Tree, vpn: nat)
    requires Good(mem, t) && vpn / 512 in t.low
    ensures t.low[vpn / 512] in mem && EntryAt(mem, t, vpn) == mem[t.low[vpn / 512]][vpn % 512]
    ensures IsValid(EntryAt(mem, t, vpn)) ==> !IsPointer(EntryAt(mem, t, vpn))
  {
    assert LowFits(mem, t, vpn / 512, vpn % 512);
  }

  lemma SameEntriesOn(m0: Memory, t0: Tree, m1: Memory, t1: Tree, m2: Memory, t2: Tree)
    requires SameEntries(m0, t0, m1, t1) && SameEntries(m1, t1, m2, t2)
    ensures SameEntries(m0, t0, m2, t2)
  {
  }

  lemma NotATable(mem: Memory, t: Tree, f: Frame)
    requires Good(mem, t) && f !in mem
    ensures t.root != f
  {
  }

  /** The table that walk comes to at a level. */
  function TableFor(t: Tree, level: nat, vpn: nat): Option<Frame> {
    TableAt(t, level, if level == 0 then vpn / 512 else if level == 1 then vpn / 512 / 512 else 0)
  }

  lemma RootFor(t: Tree, level: nat, vpn: nat)
    requires level <= 2 && TableFor(t, level, vpn).Some?
    ensures level == 2 ==> TableFor(t, level, vpn) == Some(t.root)
    ensures level == 1 ==> vpn / 512 / 512 in t.mid && TableFor(t, level, vpn) == Some(t.mid[vpn / 512 / 512])
  {
  }

  class PageTable {
    var mem: Memory
    const root: Frame
    var pool: seq<Frame>   // what kalloc has to give
    var freed: seq<Frame>  // what has been passed to kfree, in order
    ghost var t: Tree

    ghost predicate Valid()
      reads this
    {
      && Good(mem, t) && t.root == root
      && Distinct(pool) && forall i :: 0 <= i < |pool| ==> pool[i] !in mem && pool[i] < FRAMES
    }

    lemma GoodNow()
      requires Valid()
      ensures Good(mem, t)
    {
    }

    lemma PoolFresh()
      requires Valid()
      ensures forall f <- pool :: f !in mem
    {
      hide Good, Distinct;
    }

    /** kalloc, then memset to 0 */
    method NewTable() returns (f: Option<Frame>)
      requires Valid()
      modifies this`pool
      ensures f.None? <==> old(pool) == []
      ensures f.None? ==> pool == old(pool)
      ensures f.Some? ==> old(pool) == [f.value] + pool && f.value !in mem && f.value < FRAMES
      ensures Distinct(pool)
      ensures forall i :: 0 <= i < |pool| ==> pool[i] !in mem && pool[i] < FRAMES && Some(pool[i]) != f
    {
      hide Good;
      if pool == [] { return None; }
      f := Some(pool[0]);
      assert pool == [pool[0]] + pool[1..];
      pool := pool[1..];
    }

    /** walk: the word that holds the entry for va, if there is or can be made a table for it. */
    method Walk(va: nat, alloc: bool) returns (r: Option<(Frame, nat)>)
      requires Valid() && va < MAXVA
      modifies this`mem, this`pool, this`t
      ensures Valid() && SameEntries(old(mem), old(t), mem, t)
      ensures r.None? ==> va / PGSIZE / 512 !in old(t).low && (alloc ==> pool == [])
      ensures r.Some? ==> va / PGSIZE / 512 in t.low && r == Some((t.low[va / PGSIZE / 512], va / PGSIZE % 512))
      ensures !alloc ==>
                mem == old(mem) && t == old(t) && pool == old(pool) && (r.Some? <==> va / PGSIZE / 512 in t.low)
      ensures |pool| <= |old(pool)|
      ensures Framed(old(mem), old(t), mem, t, old(pool)) && forall f <- pool :: f in old(pool)
    {
      hide Good, SameEntries, Distinct, Entry, FrameOf, IsValid, WithLow, Framed;
      FramedSelf(mem, t, pool);
      PoolFresh();
      var vpn := va / PGSIZE;
      var table, level := root, 2;
      SameEntriesSelf(mem, t);
      while level > 0
        invariant 0 <= level <= 2 && Valid() && SameEntries(old(mem), old(t), mem, t) && |pool| <= |old(pool)|
        invariant old(t).low.Keys <= t.low.Keys && TableFor(t, level, vpn) == Some(table)
        invariant !alloc ==> mem == old(mem) && t == old(t) && pool == old(pool)
        invariant Framed(old(mem), old(t), mem, t, old(pool)) && forall f <- pool :: f in old(pool)
      {
        Descend(mem, t, vpn);
        RootFor(t, level, vpn);
        var pte := mem[table][Px(level, vpn)];
        if IsValid(pte) {
          table := FrameOf(pte);
        } else {
          if !alloc { return None; }
          var f := NewTable();
          if f.None? { return None; }
          ghost var m1, t1 := mem, t;
          table := LinkTable(table, level, vpn, f.value);
          FramedOn(old(mem), old(t), m1, t1, mem, t, old(pool), [f.value]);
          SameEntriesOn(old(mem), old(t), m1, t1, mem, t);
        }
        level := level - 1;
      }
      return Some((table, Px(0, vpn)));
    }

    /** *pte = PA2PTE(f) | PTE_V, at the word for vpn in a table whose entry there is not valid */
    method LinkTable(table: Frame, level: nat, vpn: nat, f: Frame) returns (r: Frame)
      requires Valid() && vpn < 512 * 512 * 512 && 1 <= level <= 2 && TableFor(t, level, vpn) == Some(table)
      requires f !in mem && f < FRAMES && table in mem && !IsValid(mem[table][Px(level, vpn)])
      requires forall i :: 0 <= i < |pool| ==> pool[i] != f
      modifies this`mem, this`t
      ensures Valid() && SameEntries(old(mem), old(t), mem, t) && r == f && Framed(old(mem), old(t), mem, t, [f])
      ensures old(t).low.Keys <= t.low.Keys && TableFor(t, level - 1, vpn) == Some(f)
    {
      hide Good, SameEntries, Distinct, Entry, FrameOf, IsValid, WithLow;
      Descend(mem, t, vpn);
      NotATable(mem, t, f);
      if level == 2 {
        AddMid(mem, t, vpn / 512 / 512, f);
        t := t.(mid := t.mid[vpn / 512 / 512 := f]);
      } else {
        AddLow(mem, t, vpn / 512, f);
        LowIs(mem, table, vpn / 512, f);
        t := t.(low := t.low[vpn / 512 := f]);
      }
      mem := mem[f := ZeroTable()][table := mem[table][Px(level, vpn) := Entry(f, 1)]];
      r := f;
    }

    /** walkaddr: the physical page of a user page, 0 where there is none. */
    method WalkAddr(va: nat) returns (pa: nat)
      requires Valid()
      modifies this`mem, this`pool, this`t
      ensures Valid() && mem == old(mem) && t == old(t) && pool == old(pool)
      ensures var w := EntryAt(mem, t, va / PGSIZE);
        pa == if va < MAXVA && IsValid(w) && IsUser(w) then FrameOf(w) * PGSIZE else 0
    {
      hide Good, FrameOf, IsUser;
      if va >= MAXVA { return 0; }
      var pte := Walk(va, false);
      if pte.None? { return 0; }
      EntryIn(mem, t, va / PGSIZE);
      var w := mem[pte.value.0][pte.value.1];
      if !IsValid(w) { return 0; }
      if !IsUser(w) { return 0; }
      pa := FrameOf(w) * PGSIZE;
    }

    /** *pte = w, at a place walk has returned */
    method SetEntry(ghost vpn: nat, pte: (Frame, nat), w: Word)
      requires Valid() && vpn / 512 in t.low && pte == (t.low[vpn / 512], vpn % 512) && (IsValid(w) ==> !IsPointer(w))
      modifies this`mem
      ensures Valid() && OneEntry(old(mem), t, mem, t, vpn, w) && mem.Keys == old(mem).Keys
      ensures Framed(old(mem), t, mem, t, [])
    {
      hide Good;
      SetLow(mem, t, vpn, w);
      mem := mem[pte.0 := mem[pte.0][pte.1 := w]];
    }

    /**
    mappages. On return the first done pages of the range are mapped and no other translation has
    changed; it stops early when a table cannot be allocated, and panics at a page already mapped.
    */
    method MapPages(va: nat, size: nat, pa: nat, perm: nat) returns (r: Outcome, ghost done: nat)
      requires Valid() && size > 0 && va + size <= MAXVA && perm < 1024 && perm / 2 % 8 != 0
      requires pa / PGSIZE + (va + size - 1) / PGSIZE - va / PGSIZE < FRAMES
      modifies this`mem, this`pool, this`t
      ensures Valid()
      ensures var first, last := va / PGSIZE, (va + size - 1) / PGSIZE;
        && done <= last - first + 1 && (r.Complete? <==> done == last - first + 1)
        && Rewritten(old(mem), old(t), mem, t, first, done, Map(pa / PGSIZE, perm))
        && (forall v: nat :: first <= v < first + done ==> !IsValid(EntryAt(old(mem), old(t), v)))
        && (r.Panic? ==> IsValid(EntryAt(old(mem), old(t), first + done)))
        && (r.NoMemory? ==> pool == [])
      ensures Framed(old(mem), old(t), mem, t, old(pool)) && forall f <- pool :: f in old(pool)
    {
      hide Good, SameEntries, Rewritten, OneEntry, EntryAt, IsValid, IsPointer, Entry, WithV, Framed;
      FramedSelf(mem, t, pool);
      PoolFresh();
      ghost var pool0 := pool;
      var a, pp := va - va % PGSIZE, pa;
      var last := va + size - 1 - (va + size - 1) % PGSIZE;
      ghost var mem0, t0, first := mem, t, va / PGSIZE;
      ghost var c := Map(pa / PGSIZE, perm);
      RewrittenNone(mem, t, first, c);
      done := 0;
      while true
        invariant Valid() && a == (first + done) * PGSIZE && a <= last && pp / PGSIZE == pa / PGSIZE + done
        invariant Rewritten(mem0, t0, mem, t, first, done, c)
        invariant Framed(mem0, t0, mem, t, pool0) && forall f <- pool :: f in pool0
        invariant forall v: nat :: first <= v < first + done ==> !IsValid(EntryAt(mem0, t0, v))
        decreases last - a
      {
        ghost var m1, t1, pool1 := mem, t, pool;
        var pte := Walk(a, true);
        FramedOn(mem0, t0, m1, t1, mem, t, pool0, pool1);
        RewrittenSame(mem0, t0, m1, t1, mem, t, first, done, c);
        if pte.None? { return NoMemory, done; }
        EntryIn(mem, t, first + done);
        RewrittenAt(mem0, t0, mem, t, first, done, c, first + done);
        if IsValid(mem[pte.value.0][pte.value.1]) { return Panic, done; }
        ghost var m2, t2 := mem, t;
        MappingIsLeaf(pp / PGSIZE, perm);
        assert NewEntry(c, done) == Entry(pp / PGSIZE, WithV(perm));
        SetEntry(first + done, pte.value, Entry(pp / PGSIZE, WithV(perm)));
        FramedOn(mem0, t0, m2, t2, mem, t, pool0, []);
        RewrittenNext(mem0, t0, m2, t2, mem, t, first, done, c);
        done := done + 1;
        if a == last { break; }
        a := a + PGSIZE;
        pp := pp + PGSIZE;
      }
      return Complete, done;
    }

    /**
    uvmunmap. On return the first done pages of the range are unmapped, their frames freed if doFree,
    and no other translation has changed; it panics at a page that is not mapped.
    */
    method UvmUnmap(va: nat, npages: nat, doFree: bool) returns (r: Outcome, ghost done: nat)
      requires Valid() && va % PGSIZE == 0 && va + npages * PGSIZE <= MAXVA
      modifies this`mem, this`pool, this`t, this`freed
      ensures Valid() && t == old(t) && pool == old(pool) && done <= npages && (r.Complete? <==> done == npages)
      ensures !r.NoMemory?
      ensures Rewritten(old(mem), t, mem, t, va / PGSIZE, done, Unmap)
      ensures forall v: nat :: va / PGSIZE <= v < va / PGSIZE + done ==> IsValid(EntryAt(old(mem), t, v))
      ensures r.Panic? ==> !IsValid(EntryAt(old(mem), t, va / PGSIZE + done))
      ensures freed == if doFree then old(freed) + Frames(old(mem), t, va / PGSIZE, done) else old(freed)
      ensures Framed(old(mem), t, mem, t, [])
    {
      hide Good, SameEntries, Rewritten, OneEntry, EntryAt, IsValid, IsPointer, FrameOf, Framed;
      FramedSelf(mem, t, []);
      var a := va;
      ghost var mem0, first := mem, va / PGSIZE;
      RewrittenNone(mem, t, first, Unmap);
      done := 0;
      while a < va + npages * PGSIZE
        invariant Valid() && t == old(t) && pool == old(pool) && a == va + done * PGSIZE && done <= npages
        invariant Rewritten(mem0, t, mem, t, first, done, Unmap) && Framed(mem0, t, mem, t, [])
        invariant forall v: nat :: first <= v < first + done ==> IsValid(EntryAt(mem0, t, v))
        invariant freed == if doFree then old(freed) + Frames(mem0, t, first, done) else old(freed)
        decreases npages - done
      {
        var pte := Walk(a, false);
        assert a / PGSIZE == first + done;
        RewrittenAt(mem0, t, mem, t, first, done, Unmap, first + done);
        if pte.None? { NoTable(mem, t, first + done); return Panic, done; }
        EntryIn(mem, t, first + done);
        var w := mem[pte.value.0][pte.value.1];
        if !IsValid(w) { return Panic, done; }
        BareIsPointer(w);
        assert w % 1024 != 1;  // PTE_FLAGS(*pte) == PTE_V is out of reach
        assert Frames(mem0, t, first, done + 1) == Frames(mem0, t, first, done) + [FrameOf(w)];
        if doFree { freed := freed + [FrameOf(w)]; }
        ghost var m1 := mem;
        ZeroIsInvalid();
        SetEntry(first + done, pte.value, 0);
        FramedOn(mem0, t, m1, t, mem, t, [], []);
        RewrittenNext(mem0, t, m1, t, mem, t, first, done, Unmap);
        a := a + PGSIZE;
        done := done + 1;
      }
      return Complete, done;
    }

    /**
    freewalk of the table at (level, idx), memory having been m0 when the outermost call began. If it
    does not panic it passes each table of the subtree to kfree, and each once; it panics just when
    some page is still mapped there.
    */
    method FreeWalk(table: Frame, ghost m0: Memory, ghost level: nat, ghost idx: nat)
      returns (ok: bool, ghost out: seq<Frame>)
      requires Good(m0, t) && level <= 2 && TableAt(t, level, idx) == Some(table) && Intact(m0, t, level, idx, mem)
      modifies this`mem, this`freed
      ensures ok <==> NoLeaves(m0, t, level, idx)
      ensures ok ==> Gone(old(mem), mem, out) && freed == old(freed) + out
      ensures ok ==> forall f :: f in out <==> InSubtree(t, level, idx, f)
      decreases level
    {
      hide Good, InSubtree, BelowEntries, TableAt, Intact, FreedUpTo, Gone, NoLeaves, IsValid, IsPointer, FrameOf,
           Distinct;
      ghost var was := mem;
      out := [];
      FreedNone(m0, t, level, idx, table, mem);
      NoLeavesYet(m0, t, level, idx, table);
      FreedFacts(m0, t, level, idx, table, was, mem, 0, out);
      var i := 0;
      while i < 512
        invariant 0 <= i <= 512 && table in mem && freed == old(freed) + out
        invariant FreedUpTo(m0, t, level, idx, table, was, mem, i, out)
        invariant NoLeavesBelow(m0, t, level, idx, i)
      {
        FreedFacts(m0, t, level, idx, table, was, mem, i, out);
        WordOf(m0, t, level, idx, table, i);
        var pte := mem[table][i];
        if IsValid(pte) && IsPointer(pte) {
          var child := FrameOf(pte);
          ghost var mid := mem;
          ChildIntact(m0, t, level, idx, table, was, mem, i, out);
          var fine, more := FreeWalk(child, m0, level - 1, idx * 512 + i);
          if !fine { LeafAbove(m0, t, level, idx, i); return false, out; }
          FreedChild(m0, t, level, idx, table, was, mid, mem, i, out, more);
          mem := mem[table := mem[table][i := 0]];
          out := out + more;
        } else if IsValid(pte) {
          LeafHere(m0, t, level, idx, table, i);
          return false, out;
        } else {
          FreedEmpty(m0, t, level, idx, table, was, mem, i, out);
        }
        NoLeavesNext(m0, t, level, idx, table, i);
        i := i + 1;
      }
      FreedAll(m0, t, level, idx, table, was, mem, out);
      NoLeavesAll(m0, t, level, idx, table);
      mem := mem - {table};
      freed := freed + [table];
      return true, out + [table];
    }
  }

  // ---- freewalk ----

  lemma FreedFacts(m0: Memory, t: Tree, level: nat, idx: nat, table: Frame, was: Memory, now: Memory, n: nat,
                   out: seq<Frame>)
    requires FreedUpTo(m0, t, level, idx, table, was, now, n, out) && n <= 512
    ensures table in now && table in m0 && (n < 512 ==> now[table][n] == m0[table][n])
  {
  }

  /** No page is mapped below the first n entries of the table at (level, idx); at level 0, by them. */
  ghost predicate NoLeavesBelow(mem: Memory, t: Tree, level: nat, idx: nat, n: nat) {
    if level == 0 then idx in t.low && t.low[idx] in mem ==> forall k :: 0 <= k < n && k < 512 ==>
        !IsValid(mem[t.low[idx]][k])
    else forall j, k :: j in t.low && t.low[j] in mem && BelowEntries(t, level, idx, n, t.low[j]) && 0 <= k < 512 ==>
        !IsValid(mem[t.low[j]][k])
  }

  lemma NoLeavesYet(mem: Memory, t: Tree, level: nat, idx: nat, table: Frame)
    ensures NoLeavesBelow(mem, t, level, idx, 0)
  {
    forall f ensures !BelowEntries(t, level, idx, 0, f) { BelowNone(t, level, idx, f); }
  }

  lemma NoLeavesNext(mem: Memory, t: Tree, level: nat, idx: nat, table: Frame, n: nat)
    requires Good(mem, t) && level <= 2 && TableAt(t, level, idx) == Some(table) && n < 512
    requires NoLeavesBelow(mem, t, level, idx, n)
    requires table in mem
    requires level == 0 ==> !IsValid(mem[table][n])
    requires level > 0 ==> TableAt(t, level - 1, idx * 512 + n).None? || NoLeaves(mem, t, level - 1, idx * 512 + n)
    ensures NoLeavesBelow(mem, t, level, idx, n + 1)
  {
    hide Good, InSubtree, BelowEntries, IsValid;
    if level > 0 {
      forall f
        ensures BelowEntries(t, level, idx, n + 1, f) <==>
                  BelowEntries(t, level, idx, n, f) || InSubtree(t, level - 1, idx * 512 + n, f)
      {
        BelowNext(t, level, idx, n, f);
      }
      if TableAt(t, level - 1, idx * 512 + n).None? {
        var below, part := level - 1, idx * 512 + n;
        forall f ensures !InSubtree(t, below, part, f) { EmptySubtree(mem, t, below, part, f); }
      }
    }
  }

  lemma NoLeavesAll(mem: Memory, t: Tree, level: nat, idx: nat, table: Frame)
    requires Good(mem, t) && level <= 2 && TableAt(t, level, idx) == Some(table)
    requires NoLeavesBelow(mem, t, level, idx, 512)
    ensures NoLeaves(mem, t, level, idx)
  {
    hide Good, InSubtree, BelowEntries, IsValid;
    forall j, k | j in t.low && t.low[j] in mem && InSubtree(t, level, idx, t.low[j]) && 0 <= k < 512
      ensures !IsValid(mem[t.low[j]][k])
    {
      BelowAll(t, level, idx, t.low[j]);
      if TableAt(t, level, idx) == Some(t.low[j]) {
        TableIsOnce(mem, t, level, idx, 0, j);
      } else if level == 0 {
        NothingBelowLow(t, idx, 512, t.low[j]);
      }
    }
  }

  lemma NothingBelowLow(t: Tree, idx: nat, n: nat, f: Frame)
    ensures !BelowEntries(t, 0, idx, n, f)
  {
  }

  lemma LeafHere(mem: Memory, t: Tree, level: nat, idx: nat, table: Frame, i: nat)
    requires level == 0 && TableAt(t, level, idx) == Some(table) && table in mem && i < 512 && IsValid(mem[table][i])
    ensures !NoLeaves(mem, t, level, idx)
  {
    BelowAll(t, level, idx, table);
    assert InSubtree(t, level, idx, t.low[idx]);
  }

  lemma LeafAbove(mem: Memory, t: Tree, level: nat, idx: nat, i: nat)
    requires level > 0 && i < 512 && !NoLeaves(mem, t, level - 1, idx * 512 + i)
    ensures !NoLeaves(mem, t, level, idx)
  {
    hide InSubtree, BelowEntries, IsValid;
    var j, k :| j in t.low && t.low[j] in mem && InSubtree(t, level - 1, idx * 512 + i, t.low[j]) && 0 <= k < 512 &&
        IsValid(mem[t.low[j]][k]);
    BelowNext(t, level, idx, i, t.low[j]);
    BelowMore(t, level, idx, i + 1, t.low[j]);
    BelowAll(t, level, idx, t.low[j]);
  }

  /** Memory still has the subtree at (level, idx) as it was in m0. */
  ghost predicate Intact(m0: Memory, t: Tree, level: nat, idx: nat, mem: Memory) {
    forall f :: InSubtree(t, level, idx, f) ==> f in mem && f in m0 && mem[f] == m0[f]
  }

  /** From was to now, the tables in out, which are distinct, have gone, and no other has changed. */
  ghost predicate Gone(was: Memory, now: Memory, out: seq<Frame>) {
    Distinct(out) && forall f :: (f in now <==> f in was && f !in out) && (f in now ==> now[f] == was[f])
  }

  /** The loop of freewalk over the table at (level, idx) has come to entry n, freeing out. */
  ghost predicate FreedUpTo(m0: Memory, t: Tree, level: nat, idx: nat, table: Frame, was: Memory, now: Memory, n: nat,
                            out: seq<Frame>) {
    && Distinct(out) && (forall f :: f in out <==> BelowEntries(t, level, idx, n, f))
    && (forall f :: (f in now <==> f in was && f !in out) && (f in now && f != table ==> now[f] == was[f]))
    && table in now && table in m0 && (forall c :: n <= c < 512 ==> now[table][c] == m0[table][c])
  }

  lemma FreedNone(m0: Memory, t: Tree, level: nat, idx: nat, table: Frame, was: Memory)
    requires TableAt(t, level, idx) == Some(table) && Intact(m0, t, level, idx, was)
    ensures FreedUpTo(m0, t, level, idx, table, was, was, 0, [])
  {
    BelowAll(t, level, idx, table);
    assert InSubtree(t, level, idx, table);
    forall f ensures !BelowEntries(t, level, idx, 0, f) { BelowNone(t, level, idx, f); }
  }

  /** The subtree under entry n is still there. */
  lemma ChildIntact(m0: Memory, t: Tree, level: nat, idx: nat, table: Frame, was: Memory, now: Memory, n: nat,
                    out: seq<Frame>)
    requires Good(m0, t) && 0 < level <= 2 && TableAt(t, level, idx) == Some(table) && n < 512
    requires Intact(m0, t, level, idx, was) && FreedUpTo(m0, t, level, idx, table, was, now, n, out)
    ensures Intact(m0, t, level - 1, idx * 512 + n, now)
  {
    hide Good, InSubtree, BelowEntries, TableAt, Distinct;
    forall f | InSubtree(t, level - 1, idx * 512 + n, f) ensures f in now && f in m0 && now[f] == m0[f] {
      BelowNext(t, level, idx, n, f);
      BelowMore(t, level, idx, n + 1, f);
      BelowAll(t, level, idx, f);
      if f == table { TableNotBelow(m0, t, level, idx, n, f); }
      if BelowEntries(t, level, idx, n, f) { SubtreesApart(m0, t, level, idx, n, f); }
    }
  }

  lemma BelowMore(t: Tree, level: nat, idx: nat, n: nat, f: Frame)
    requires BelowEntries(t, level, idx, n, f) && n <= 512
    ensures BelowEntries(t, level, idx, 512, f)
  {
  }

  /** One entry more: its subtree has been freed, and the word set to 0. */
  lemma FreedChild(m0: Memory, t: Tree, level: nat, idx: nat, table: Frame, was: Memory, mid: Memory, after: Memory,
                   n: nat, out: seq<Frame>, more: seq<Frame>)
    requires Good(m0, t) && 0 < level <= 2 && TableAt(t, level, idx) == Some(table) && n < 512
    requires FreedUpTo(m0, t, level, idx, table, was, mid, n, out) && Gone(mid, after, more)
    requires forall f :: f in more <==> InSubtree(t, level - 1, idx * 512 + n, f)
    ensures table in after
    ensures FreedUpTo(m0, t, level, idx, table, was, after[table := after[table][n := 0]], n + 1, out + more)
  {
    hide Good, InSubtree, BelowEntries, TableAt, Distinct;
    forall f ensures f in out + more <==> BelowEntries(t, level, idx, n + 1, f) { BelowNext(t, level, idx, n, f); }
    TableNotBelow(m0, t, level, idx, n, table);
    forall f | f in out ensures f !in more { SubtreesApart(m0, t, level, idx, n, f); }
    DistinctPlus(out, more);
  }

  lemma DistinctPlus(a: seq<Frame>, b: seq<Frame>)
    requires Distinct(a) && Distinct(b) && forall f :: f in a ==> f !in b
    ensures Distinct(a + b)
  {
    forall i, j | 0 <= i < j < |a + b| ensures (a + b)[i] != (a + b)[j] {
      if i < |a| <= j { assert a[i] in a && b[j - |a|] in b; }
    }
  }

  /** An entry with nothing below it. */
  lemma FreedEmpty(m0: Memory, t: Tree, level: nat, idx: nat, table: Frame, was: Memory, now: Memory, n: nat,
                   out: seq<Frame>)
    requires Good(m0, t) && level <= 2 && n < 512 && FreedUpTo(m0, t, level, idx, table, was, now, n, out)
    requires level > 0 ==> TableAt(t, level - 1, idx * 512 + n).None?
    ensures FreedUpTo(m0, t, level, idx, table, was, now, n + 1, out)
  {
    hide Good, InSubtree, TableAt, Distinct;
    forall f ensures BelowEntries(t, level, idx, n + 1, f) <==> BelowEntries(t, level, idx, n, f) {
      if level > 0 {
        BelowNext(t, level, idx, n, f);
        EmptySubtree(m0, t, level - 1, idx * 512 + n, f);
      }
    }
  }

  /** All entries done, the table itself goes. */
  lemma FreedAll(m0: Memory, t: Tree, level: nat, idx: nat, table: Frame, was: Memory, now: Memory, out: seq<Frame>)
    requires Good(m0, t) && level <= 2 && TableAt(t, level, idx) == Some(table)
    requires FreedUpTo(m0, t, level, idx, table, was, now, 512, out)
    ensures Gone(was, now - {table}, out + [table])
    ensures forall f :: f in out + [table] <==> InSubtree(t, level, idx, f)
  {
    hide Good, InSubtree, BelowEntries, TableAt, Distinct;
    TableNotBelow(m0, t, level, idx, 512, table);
    SingletonDistinct(table);
    DistinctPlus(out, [table]);
    forall f ensures f in out + [table] <==> InSubtree(t, level, idx, f) { BelowAll(t, level, idx, f); }
  }

  lemma SingletonDistinct(f: Frame)
    ensures Distinct([f])
  {
  }

  // ---- the tables of a subtree ----

  /** The table that covers the idx-th part of the address space at a level; the root is at level 2. */
  function TableAt(t: Tree, level: nat, idx: nat): Option<Frame> {
    if level == 2 && idx == 0 then Some(t.root)
    else if level == 1 && idx in t.mid then Some(t.mid[idx])
    else if level == 0 && idx in t.low then Some(t.low[idx])
    else None
  }

  /** The part that contains part a, n levels up. */
  function Up(a: nat, n: nat): nat {
    if n == 0 then a else Up(a, n - 1) / 512
  }

  /** f is the table at (level, idx) or one below it. */
  ghost predicate InSubtree(t: Tree, level: nat, idx: nat, f: Frame) {
    exists l: nat, a: nat :: l <= level && TableAt(t, l, a) == Some(f) && Up(a, level - l) == idx
  }

  /** f is a table below one of the first n entries of (level, idx). */
  ghost predicate BelowEntries(t: Tree, level: nat, idx: nat, n: nat, f: Frame) {
    exists l: nat, a: nat :: l < level && TableAt(t, l, a) == Some(f) &&
        idx * 512 <= Up(a, level - 1 - l) < idx * 512 + n
  }

  /** No page is mapped below (level, idx). */
  ghost predicate NoLeaves(mem: Memory, t: Tree, level: nat, idx: nat) {
    forall j, k :: j in t.low && t.low[j] in mem && InSubtree(t, level, idx, t.low[j]) && 0 <= k < 512 ==>
        !IsValid(mem[t.low[j]][k])
  }

  /** What freewalk finds in a word of the table at (level, idx). */
  lemma WordOf(mem: Memory, t: Tree, level: nat, idx: nat, f: Frame, i: nat)
    requires Good(mem, t) && level <= 2 && TableAt(t, level, idx) == Some(f) && i < 512
    ensures f in mem
    ensures var w := mem[f][i];
      if level > 0 && TableAt(t, level - 1, idx * 512 + i).Some? then
        IsValid(w) && IsPointer(w) && TableAt(t, level - 1, idx * 512 + i) == Some(FrameOf(w))
      else IsValid(w) ==> level == 0 && !IsPointer(w)
  {
    if level == 2 {
      assert RootFits(mem, t, i);
      if i in t.mid { EntryParts(t.mid[i], 1); }
    } else if level == 1 {
      assert MidFits(mem, t, idx, i);
      if idx * 512 + i in t.low { EntryParts(t.low[idx * 512 + i], 1); }
    } else {
      assert LowFits(mem, t, idx, i);
    }
  }

  /** Where a table is tells its level and place; so subtrees side by side share no table. */
  lemma TableIsOnce(mem: Memory, t: Tree, l: nat, a: nat, m: nat, b: nat)
    requires Good(mem, t) && l <= 2 && m <= 2 && TableAt(t, l, a).Some? && TableAt(t, l, a) == TableAt(t, m, b)
    ensures l == m && a == b
  {
  }

  lemma BelowNone(t: Tree, level: nat, idx: nat, f: Frame)
    ensures !BelowEntries(t, level, idx, 0, f)
  {
  }

  lemma BelowNext(t: Tree, level: nat, idx: nat, n: nat, f: Frame)
    requires level > 0
    ensures BelowEntries(t, level, idx, n + 1, f) <==>
              BelowEntries(t, level, idx, n, f) || InSubtree(t, level - 1, idx * 512 + n, f)
  {
    if InSubtree(t, level - 1, idx * 512 + n, f) {
      var l: nat, a: nat :| l <= level - 1 && TableAt(t, l, a) == Some(f) && Up(a, level - 1 - l) == idx * 512 + n;
      assert l < level;
    }
  }

  lemma BelowAll(t: Tree, level: nat, idx: nat, f: Frame)
    ensures InSubtree(t, level, idx, f) <==> TableAt(t, level, idx) == Some(f) || BelowEntries(t, level, idx, 512, f)
  {
    if InSubtree(t, level, idx, f) {
      var l: nat, a: nat :| l <= level && TableAt(t, l, a) == Some(f) && Up(a, level - l) == idx;
      if l < level { assert Up(a, level - l) == Up(a, level - 1 - l) / 512; }
    }
    if BelowEntries(t, level, idx, 512, f) {
      var l: nat, a: nat :| l < level && TableAt(t, l, a) == Some(f) &&
          idx * 512 <= Up(a, level - 1 - l) < idx * 512 + 512;
      assert Up(a, level - l) == Up(a, level - 1 - l) / 512 == idx;
    }
    if TableAt(t, level, idx) == Some(f) { assert Up(idx, level - level) == idx; }
  }

  lemma SubtreesApart(mem: Memory, t: Tree, level: nat, idx: nat, n: nat, f: Frame)
    requires Good(mem, t) && 0 < level <= 2 && BelowEntries(t, level, idx, n, f)
    ensures !InSubtree(t, level - 1, idx * 512 + n, f)
  {
    hide Good, TableAt, Up;
    var l: nat, a: nat :| l < level && TableAt(t, l, a) == Some(f) && idx * 512 <= Up(a, level - 1 - l) < idx * 512 + n;
    if InSubtree(t, level - 1, idx * 512 + n, f) {
      var m: nat, b: nat :| m <= level - 1 && TableAt(t, m, b) == Some(f) && Up(b, level - 1 - m) == idx * 512 + n;
      TableIsOnce(mem, t, l, a, m, b);
    }
  }

  lemma TableNotBelow(mem: Memory, t: Tree, level: nat, idx: nat, n: nat, f: Frame)
    requires Good(mem, t) && level <= 2 && TableAt(t, level, idx) == Some(f)
    ensures !BelowEntries(t, level, idx, n, f)
    ensures level > 0 ==> !InSubtree(t, level - 1, idx * 512 + n, f)
  {
    hide Good, TableAt, Up;
    if BelowEntries(t, level, idx, n, f) {
      var m: nat, b: nat :| m < level && TableAt(t, m, b) == Some(f) &&
          idx * 512 <= Up(b, level - 1 - m) < idx * 512 + n;
      TableIsOnce(mem, t, level, idx, m, b);
    }
    if level > 0 && InSubtree(t, level - 1, idx * 512 + n, f) {
      var m: nat, b: nat :| m <= level - 1 && TableAt(t, m, b) == Some(f) && Up(b, level - 1 - m) == idx * 512 + n;
      TableIsOnce(mem, t, level, idx, m, b);
    }
  }

  lemma UpOne(a: nat)
    ensures Up(a, 1) == a / 512
  {
    assert Up(a, 0) == a;
  }

  lemma EmptySubtree(mem: Memory, t: Tree, level: nat, idx: nat, f: Frame)
    requires Good(mem, t) && level <= 1 && TableAt(t, level, idx).None?
    ensures !InSubtree(t, level, idx, f)
  {
    if InSubtree(t, level, idx, f) {
      var l: nat, a: nat :| l <= level && TableAt(t, l, a) == Some(f) && Up(a, level - l) == idx;
      UpOne(a);
    }
  }

  // ---- entries that mappages writes ----

  /** The frames that n pages from first on are mapped to. */
  function Frames(mem: Memory, t: Tree, first: nat, n: nat): (r: seq<Frame>)
    ensures |r| == n
  {
    if n == 0 then [] else Frames(mem, t, first, n - 1) + [FrameOf(EntryAt(mem, t, first + n - 1))]
  }

  lemma MappingIsLeaf(f: Frame, perm: nat)
    requires f < FRAMES && perm < 1024 && perm / 2 % 8 != 0
    ensures IsValid(Entry(f, WithV(perm))) && !IsPointer(Entry(f, WithV(perm)))
  {
    hide IsValid, IsPointer, Entry;
    EntryParts(f, WithV(perm));
  }

  lemma RewrittenAt(mem: Memory, t: Tree, mem': Memory, t': Tree, first: nat, n: nat, c: Change, v: nat)
    requires Rewritten(mem, t, mem', t', first, n, c) && v >= first + n
    ensures EntryAt(mem', t', v) == EntryAt(mem, t, v)
  {
  }

  lemma NoTable(mem: Memory, t: Tree, v: nat)
    requires v / 512 !in t.low
    ensures !IsValid(EntryAt(mem, t, v))
  {
  }

  lemma ZeroIsInvalid()
    ensures !IsValid(0)
  {
  }

  /** An entry with no flag but V is a pointer. */
  lemma BareIsPointer(w: Word)
    ensures w % 1024 == 1 ==> IsPointer(w)
  {
    hide IsPointer;
    if w % 1024 == 1 { BareWord(w / 1024, w); }
  }

  lemma EightFold(k: nat, v: nat)
    requires v == 8 * k
    ensures v % 8 == 0
  {
  }

  lemma BareWord(q: nat, w: Word)
    requires w == 1024 * q + 1
    ensures IsPointer(w)
  {
    EightFold(64 * q, w / 2);
  }

  lemma SameEntriesSelf(mem: Memory, t: Tree)
    ensures SameEntries(mem, t, mem, t)
  {
  }

  lemma LowIs(mem: Memory, m: Frame, j: nat, f: Frame)
    requires m in mem && f < FRAMES
    ensures WithLow(mem, m, j, f) == mem[f := ZeroTable()][m := mem[m][j % 512 := Entry(f, 1)]]
  {
  }
}
