/**
The buffer cache under the log: what bread, brelse and bpin do to the buffers of kernel/bio.c is what the
machine of kernel/log.c takes them to do to its cache, a map from block numbers to contents.
*/
module LogBuffers {
  import opened Wrappers
  import opened BufferCache
  import opened L = LogMachine
  import opened T = LogTheorems

  /** The references the log and the holder of the sleep lock have to a block. */
  function Uses(s: L.State, b: nat): nat {
    (if b in s.held then 1 else 0) + if b in L.Pinned(s) then 1 else 0
  }

  function One(b: nat, lent: set<nat>): nat {
    if b in lent then 1 else 0
  }

  /**
  The valid buffers of dev are the machine's cache, and every use of a block is counted; lent are the blocks
  that the code of the log itself has got from bread for the moment.
  */
  ghost predicate Agrees(bufs: seq<Buf>, dev: nat, s: L.State, lent: set<nat>) {
    && Unique(bufs) && dev != 0 && CacheOf(bufs, dev) == s.cache
    && (forall b :: b in L.Pinned(s) ==> b in s.cache)
    && forall i :: 0 <= i < |bufs| && bufs[i].valid && bufs[i].dev == dev ==>
         Uses(s, bufs[i].blockno) + One(bufs[i].blockno, lent) <= bufs[i].refcnt
  }

  /** A buffer whose block has left the cache of the map. */
  lemma Unused(bufs: seq<Buf>, dev: nat, s: L.State, lent: set<nat>, i: nat)
    requires Agrees(bufs, dev, s, lent) && i < |bufs| && bufs[i].valid && bufs[i].dev == dev && bufs[i].refcnt == 0
    ensures var v := bufs[i].blockno; v in s.cache && v !in s.held && v !in L.Pinned(s) && v !in lent
  {
    hide CacheOf, Unique;
    CacheAt(bufs, dev, i);
  }

  /** bget's victim, if it held a block of the device, is evicted. */
  function Victim(was: seq<Buf>, b: nat, dev: nat, blockno: nat): seq<L.Event>
    requires b < |was|
  {
    if !Caches(was[b], dev, blockno) && was[b].valid && was[b].dev == dev then [L.Evict(was[b].blockno)] else []
  }

  /** The machine after the eviction. */
  function Evicted(s: L.State, was: seq<Buf>, b: nat, dev: nat, blockno: nat): L.State
    requires b < |was|
  {
    if Victim(was, b, dev, blockno) == [] then s else s.(cache := s.cache - {was[b].blockno})
  }

  lemma Evicts(l: L.Layout, s: L.State, lent: set<nat>, was: seq<Buf>, got: seq<Buf>, dropped: seq<nat>, dev: nat,
               blockno: nat, b: nat)
    requires L.Wf(l, s) && Agrees(was, dev, s, lent) && Unique(got) && Got(was, got, dropped, dev, blockno, Some(b))
    ensures L.Exec(l, s, Victim(was, b, dev, blockno)) == Some(Evicted(s, was, b, dev, blockno))
    ensures CacheOf(got, dev) == Evicted(s, was, b, dev, blockno).cache
    ensures L.Pinned(Evicted(s, was, b, dev, blockno)) == L.Pinned(s)
  {
    hide CacheOf, Unique;
    if Caches(was[b], dev, blockno) {
      BreadHit(was, got, dropped, dev, blockno, b);
    } else {
      BreadMiss(was, got, dropped, dev, blockno, b);
      if was[b].valid && was[b].dev == dev {
        Unused(was, dev, s, lent, b);
        assert L.Exec(l, s, []) == Some(s);
        T.Extend(l, s, [], s, L.Evict(was[b].blockno));
        assert [] + [L.Evict(was[b].blockno)] == Victim(was, b, dev, blockno);
      } else {
        NoVictim(s.cache);
      }
    }
  }

  /** What bread finds in the buffer, or reads into it, is what the machine takes to be cached. */
  lemma Reads(s: L.State, lent: set<nat>, was: seq<Buf>, got: seq<Buf>, dropped: seq<nat>, dev: nat, blockno: nat,
              b: nat)
    requires Agrees(was, dev, s, lent) && Unique(got) && Got(was, got, dropped, dev, blockno, Some(b))
    requires blockno < |s.disk|
    ensures b < |was|
    ensures L.Cached(Evicted(s, was, b, dev, blockno), blockno) == if got[b].valid then got[b].data else s.disk[blockno]
    ensures !(Caches(was[b], dev, blockno) && was[b].valid) ==> blockno !in s.cache
  {
    hide CacheOf, Unique;
    if Caches(was[b], dev, blockno) {
      BreadHit(was, got, dropped, dev, blockno, b);
    } else {
      BreadMiss(was, got, dropped, dev, blockno, b);
    }
  }

  lemma Holds(s: L.State, s': L.State, lent: set<nat>, was: seq<Buf>, got: seq<Buf>, now: seq<Buf>, dropped: seq<nat>,
              dev: nat, blockno: nat, b: nat, p: L.Proc)
    requires Agrees(was, dev, s, lent) && Got(was, got, dropped, dev, blockno, Some(b))
    requires blockno !in s.held && blockno !in lent
    requires Unique(now) && b < |got| == |now| && now == got[b := now[b]]
    requires now[b] == got[b].(valid := true, data := now[b].data)
    requires !(Caches(was[b], dev, blockno) && was[b].valid) ==> blockno !in s.cache
    requires L.Pinned(s') == L.Pinned(s) && s'.held == s.held[blockno := p]
    ensures forall i :: 0 <= i < |now| && now[i].valid && now[i].dev == dev ==>
              Uses(s', now[i].blockno) + One(now[i].blockno, lent) <= now[i].refcnt
  {
    hide CacheOf;
    forall i | 0 <= i < |now| && now[i].valid && now[i].dev == dev
      ensures Uses(s', now[i].blockno) + One(now[i].blockno, lent) <= now[i].refcnt
    {
      if i != b {
        assert now[i] == was[i];
        OneBuffer(now, i, b);
      }
    }
  }

  lemma OneBuffer(bufs: seq<Buf>, i: nat, j: nat)
    requires Unique(bufs) && i < |bufs| && j < |bufs| && i != j && bufs[i].dev == bufs[j].dev != 0
    ensures bufs[i].blockno != bufs[j].blockno
  {
    if i < j { assert !Caches(bufs[j], bufs[i].dev, bufs[i].blockno); }
    else { assert !Caches(bufs[i], bufs[j].dev, bufs[j].blockno); }
  }

  /** bread of a block: perhaps an eviction, and then the machine's Acquire. */
  lemma BreadIsAcquire(l: L.Layout, s: L.State, lent: set<nat>, was: seq<Buf>, got: seq<Buf>, now: seq<Buf>,
                       dropped: seq<nat>, dev: nat, blockno: nat, b: nat, p: L.Proc)
    requires L.Wf(l, s) && !s.phase.Booting() && l.Home(blockno) && blockno !in s.held && blockno !in lent
    requires Agrees(was, dev, s, lent) && Unique(got) && Unique(now) && Got(was, got, dropped, dev, blockno, Some(b))
    requires now == got[b := got[b].(valid := true, data := if got[b].valid then got[b].data else s.disk[blockno])]
    ensures b < |was|
    ensures var r := L.Exec(l, s, Victim(was, b, dev, blockno) + [L.Acquire(p, blockno)]);
            && r.Some? && Agrees(now, dev, r.value, lent)
            && r.value.cache[blockno] == now[b].data && r.value.held == s.held[blockno := p]
  {
    hide CacheOf, Unique, L.Exec, Victim;
    Evicts(l, s, lent, was, got, dropped, dev, blockno, b);
    Reads(s, lent, was, got, dropped, dev, blockno, b);
    FilledCache(got, b, now[b].data, dev);
    var mid := Evicted(s, was, b, dev, blockno);
    var s' := mid.(held := mid.held[blockno := p], cache := mid.cache[blockno := L.Cached(mid, blockno)]);
    T.Extend(l, s, Victim(was, b, dev, blockno), mid, L.Acquire(p, blockno));
    assert L.Pinned(s') == L.Pinned(s);
    Holds(s, s', lent, was, got, now, dropped, dev, blockno, b, p);
    StaysPinned(s, mid, lent, was, got, dropped, dev, blockno, b);
  }

  /** An eviction does not take what is pinned. */
  lemma StaysPinned(s: L.State, mid: L.State, lent: set<nat>, was: seq<Buf>, got: seq<Buf>, dropped: seq<nat>,
                    dev: nat, blockno: nat, b: nat)
    requires Agrees(was, dev, s, lent) && Unique(got) && Got(was, got, dropped, dev, blockno, Some(b))
    requires mid == Evicted(s, was, b, dev, blockno)
    ensures forall c :: c in L.Pinned(s) ==> c in mid.cache
  {
    hide CacheOf, Unique;
    if Victim(was, b, dev, blockno) != [] {
      BreadMiss(was, got, dropped, dev, blockno, b);
      Unused(was, dev, s, lent, b);
    }
  }

  /** brelse of an unmodified buffer is the machine's Release. */
  lemma BrelseIsRelease(l: L.Layout, s: L.State, lent: set<nat>, was: seq<Buf>, now: seq<Buf>, dev: nat, b: nat,
                        p: L.Proc)
    requires L.Wf(l, s) && Agrees(was, dev, s, lent) && b < |was| && was[b].valid && was[b].dev == dev
    requires var c := was[b].blockno; c in s.held && s.held[c] == p && c !in s.dirty
    requires was[b].refcnt > 0 && now == was[b := was[b].(refcnt := was[b].refcnt - 1)] && Unique(now)
    ensures var r := L.Next(l, s, L.Release(p, was[b].blockno));
            r.Some? && Agrees(now, dev, r.value, lent)
  {
    hide CacheOf, Unique;
    var s' := L.Next(l, s, L.Release(p, was[b].blockno)).value;
    SameCache(was, now, dev);
    assert L.Pinned(s') == L.Pinned(s);
    forall i | 0 <= i < |now| && now[i].valid && now[i].dev == dev
      ensures Uses(s', now[i].blockno) + One(now[i].blockno, lent) <= now[i].refcnt
    {
      if i != b { OneBuffer(was, i, b); }
    }
  }

  /** log_write of a block that is new in the log, with its bpin, is the machine's LogWrite. */
  lemma PinIsLogWrite(l: L.Layout, s: L.State, lent: set<nat>, was: seq<Buf>, now: seq<Buf>, dev: nat, b: nat,
                      p: L.Proc)
    requires L.Wf(l, s) && Agrees(was, dev, s, lent) && b < |was| && was[b].valid && was[b].dev == dev && s.phase.Idle?
    requires var c := was[b].blockno;
             c in s.held && s.held[c] == p && p in s.ops && l.Home(c) && !L.LogFull(l, s) && c !in s.lh && c in s.cache
    requires now == was[b := was[b].(refcnt := was[b].refcnt + 1)] && Unique(now)
    ensures var c := was[b].blockno;
            var r := L.Next(l, s, L.LogWrite(p, c, s.cache[c]));
            r.Some? && Agrees(now, dev, r.value, lent)
  {
    hide CacheOf, Unique;
    var c := was[b].blockno;
    var s' := L.Next(l, s, L.LogWrite(p, c, s.cache[c])).value;
    SameCache(was, now, dev);
    assert L.Pinned(s') == L.Pinned(s) + [c];
    forall i | 0 <= i < |now| && now[i].valid && now[i].dev == dev
      ensures Uses(s', now[i].blockno) + One(now[i].blockno, lent) <= now[i].refcnt
    {
      if i != b { OneBuffer(was, i, b); }
    }
  }

  // ---- what commit and recovery do to buffers themselves ----

  /** bread: bget, and then the disk's contents if the buffer was not valid. */
  ghost predicate Bread(was: seq<Buf>, got: seq<Buf>, now: seq<Buf>, dropped: seq<nat>, dev: nat, disk: seq<L.Block>,
                        blockno: nat, b: nat) {
    && blockno < |disk| && Unique(got) && Unique(now) && Got(was, got, dropped, dev, blockno, Some(b))
    && now == got[b := got[b].(valid := true, data := if got[b].valid then got[b].data else disk[blockno])]
  }

  /** The machine with block b, as it is on disk, in the cache as well. */
  function Warm(s: L.State, b: nat): L.State
    requires b < |s.disk|
  {
    s.(cache := s.cache[b := L.Cached(s, b)])
  }

  /** bread by the log's own code: perhaps an eviction, and then one more block in the cache, and lent. */
  lemma BreadLends(l: L.Layout, s: L.State, lent: set<nat>, was: seq<Buf>, got: seq<Buf>, now: seq<Buf>,
                   dropped: seq<nat>, dev: nat, blockno: nat, b: nat)
    requires L.Wf(l, s) && Agrees(was, dev, s, lent) && Bread(was, got, now, dropped, dev, s.disk, blockno, b)
    requires blockno !in lent
    ensures b < |was| == |now| && now[b].valid && now[b].dev == dev && now[b].blockno == blockno
    ensures var mid := Evicted(s, was, b, dev, blockno);
            && L.Exec(l, s, Victim(was, b, dev, blockno)) == Some(mid)
            && Agrees(now, dev, Warm(mid, blockno), lent + {blockno}) && now[b].data == L.Cached(mid, blockno)
            && mid == s.(cache := mid.cache) && forall c :: c in L.Pinned(s) ==> c in mid.cache
  {
    hide CacheOf, Unique, L.Exec, Victim;
    Evicts(l, s, lent, was, got, dropped, dev, blockno, b);
    Reads(s, lent, was, got, dropped, dev, blockno, b);
    var mid := Evicted(s, was, b, dev, blockno);
    FilledCache(got, b, now[b].data, dev);
    StaysPinned(s, mid, lent, was, got, dropped, dev, blockno, b);
    Lends(s, Warm(mid, blockno), lent, was, got, now, dropped, dev, blockno, b);
    EvictedOnly(s, was, b, dev, blockno);
  }

  lemma Lends(s: L.State, s': L.State, lent: set<nat>, was: seq<Buf>, got: seq<Buf>, now: seq<Buf>, dropped: seq<nat>,
              dev: nat, blockno: nat, b: nat)
    requires Agrees(was, dev, s, lent) && Got(was, got, dropped, dev, blockno, Some(b)) && blockno !in lent
    requires Unique(now) && b < |got| == |now| && now == got[b := now[b]]
    requires now[b] == got[b].(valid := true, data := now[b].data)
    requires !(Caches(was[b], dev, blockno) && was[b].valid) ==> blockno !in s.cache && blockno !in s.held
    requires s'.held == s.held && L.Pinned(s') == L.Pinned(s)
    ensures forall i :: 0 <= i < |now| && now[i].valid && now[i].dev == dev ==>
              Uses(s', now[i].blockno) + One(now[i].blockno, lent + {blockno}) <= now[i].refcnt
  {
    hide CacheOf;
    forall i | 0 <= i < |now| && now[i].valid && now[i].dev == dev
      ensures Uses(s', now[i].blockno) + One(now[i].blockno, lent + {blockno}) <= now[i].refcnt
    {
      if i != b {
        assert now[i] == was[i];
        OneBuffer(now, i, b);
      }
    }
  }

  /** brelse of what was lent. */
  lemma BrelseReturns(s: L.State, lent: set<nat>, was: seq<Buf>, now: seq<Buf>, dev: nat, b: nat)
    requires Agrees(was, dev, s, lent) && b < |was| && was[b].valid && was[b].dev == dev && was[b].blockno in lent
    requires was[b].refcnt > 0 && now == was[b := was[b].(refcnt := was[b].refcnt - 1)] && Unique(now)
    ensures Agrees(now, dev, s, lent - {was[b].blockno})
  {
    hide CacheOf, Unique;
    SameCache(was, now, dev);
    var lent' := lent - {was[b].blockno};
    forall i | 0 <= i < |now| && now[i].valid && now[i].dev == dev
      ensures Uses(s, now[i].blockno) + One(now[i].blockno, lent') <= now[i].refcnt
    {
      if i != b { OneBuffer(was, i, b); }
    }
  }

  /** A block lent to the log's code is overwritten, in the buffer as in the machine; and d references are dropped. */
  lemma Rewrites(s: L.State, s': L.State, lent: set<nat>, was: seq<Buf>, now: seq<Buf>, dev: nat, b: nat, d: nat)
    requires Agrees(was, dev, s, lent) && b < |was| && was[b].valid && was[b].dev == dev && d <= was[b].refcnt
    requires |now| == |was| && now == was[b := was[b].(data := now[b].data, refcnt := was[b].refcnt - d)] && Unique(now)
    requires s'.cache == s.cache[was[b].blockno := now[b].data] && s'.held == s.held
    requires forall c :: c in L.Pinned(s') ==> c in L.Pinned(s)
    requires d == 0 || (d == 1 && was[b].blockno in L.Pinned(s) && was[b].blockno !in L.Pinned(s'))
    ensures Agrees(now, dev, s', lent)
  {
    hide Unique;
    RewrittenCache(was, b, now[b], dev);
    forall i | 0 <= i < |now| && now[i].valid && now[i].dev == dev
      ensures Uses(s', now[i].blockno) + One(now[i].blockno, lent) <= now[i].refcnt
    {
      if i != b { OneBuffer(was, i, b); }
    }
  }

  lemma RewrittenCache(a: seq<Buf>, v: nat, x: Buf, dev: nat)
    requires Unique(a) && dev != 0 && v < |a| && a[v].valid && a[v].dev == dev
    requires x == a[v].(data := x.data, refcnt := x.refcnt) && Unique(a[v := x])
    ensures CacheOf(a[v := x], dev) == CacheOf(a, dev)[a[v].blockno := x.data]
  {
    hide CacheOf, Unique;
    var b := a[v := x];
    var m := CacheOf(a, dev)[a[v].blockno := x.data];
    CacheAt(b, dev, v);
    forall k ensures k in CacheOf(b, dev) ==> k in m && CacheOf(b, dev)[k] == m[k] {
      if k in CacheOf(b, dev) && k != a[v].blockno {
        var i := Where(b, dev, k);
        CacheAt(a, dev, i);
        CacheAt(b, dev, i);
      }
    }
    forall k ensures k in m ==> k in CacheOf(b, dev) {
      if k in m && k != a[v].blockno {
        var i := Where(a, dev, k);
        CacheAt(b, dev, i);
      }
    }
  }

  lemma SamePinned(s: L.State, m: L.State)
    requires m == s.(cache := m.cache)
    ensures L.Pinned(m) == L.Pinned(s)
  {
  }

  /** The eviction for a second bread is the machine's also before the first block is in its cache. */
  lemma EvictsCold(l: L.Layout, s: L.State, lent: set<nat>, was: seq<Buf>, dev: nat, first: nat, blockno: nat, b: nat)
    requires L.Wf(l, s) && first < |s.disk| && b < |was| && Agrees(was, dev, Warm(s, first), lent) && first in lent
    requires !Caches(was[b], dev, blockno) ==> was[b].refcnt == 0
    ensures L.Exec(l, s, Victim(was, b, dev, blockno)) == Some(Evicted(s, was, b, dev, blockno))
    ensures Evicted(Warm(s, first), was, b, dev, blockno) == Warm(Evicted(s, was, b, dev, blockno), first)
    ensures L.Cached(Evicted(s, was, b, dev, blockno), first) == L.Cached(s, first)
    ensures (forall c :: c in L.Pinned(s) ==> c in s.cache) ==>
              forall c :: c in L.Pinned(s) ==> c in Evicted(s, was, b, dev, blockno).cache
  {
    hide CacheOf, Unique, L.Exec, L.Wf, L.Pinned;
    if Victim(was, b, dev, blockno) == [] {
      NothingYet(l, s);
    } else {
      Unused(was, dev, Warm(s, first), lent, b);
      SamePinned(s, Warm(s, first));
      OneEvicted(l, s, was[b].blockno, first);
    }
  }

  lemma NothingYet(l: L.Layout, s: L.State)
    requires L.Wf(l, s)
    ensures L.Exec(l, s, []) == Some(s)
  {
  }

  lemma OneEvicted(l: L.Layout, s: L.State, v: nat, first: nat)
    requires L.Wf(l, s) && first < |s.disk| && v in s.cache && v != first && v !in s.held && v !in L.Pinned(s)
    ensures L.Exec(l, s, [L.Evict(v)]) == Some(s.(cache := s.cache - {v}))
    ensures L.Cached(s.(cache := s.cache - {v}), first) == L.Cached(s, first)
    ensures Warm(s, first).(cache := Warm(s, first).cache - {v}) == Warm(s.(cache := s.cache - {v}), first)
  {
    hide L.Pinned, L.Wf;
    NothingYet(l, s);
    T.Extend(l, s, [], s, L.Evict(v));
    assert [] + [L.Evict(v)] == [L.Evict(v)];
    assert Warm(s, first).cache - {v} == (s.cache - {v})[first := L.Cached(s, first)];
  }

  lemma EvictedOnly(s: L.State, was: seq<Buf>, b: nat, dev: nat, blockno: nat)
    requires b < |was|
    ensures Evicted(s, was, b, dev, blockno) == s.(cache := Evicted(s, was, b, dev, blockno).cache)
    ensures L.Pinned(Evicted(s, was, b, dev, blockno)) == L.Pinned(s)
  {
  }

  lemma MissIsUnused(was: seq<Buf>, got: seq<Buf>, dropped: seq<nat>, dev: nat, blockno: nat, b: nat)
    requires Got(was, got, dropped, dev, blockno, Some(b))
    ensures b < |was| && (!Caches(was[b], dev, blockno) ==> was[b].refcnt == 0)
  {
  }

  lemma LentIsCounted(bufs: seq<Buf>, dev: nat, s: L.State, lent: set<nat>, i: nat)
    requires Agrees(bufs, dev, s, lent) && i < |bufs| && bufs[i].valid && bufs[i].dev == dev && bufs[i].blockno in lent
    ensures bufs[i].refcnt > 0
  {
    hide CacheOf, Unique;
  }

  /** A lent block stays in its buffer through another bread. */
  lemma StillThere(was: seq<Buf>, got: seq<Buf>, now: seq<Buf>, dropped: seq<nat>, dev: nat, disk: seq<L.Block>,
                   b1: nat, b2: nat, i1: nat, i2: nat, s: L.State)
    requires Agrees(was, dev, s, {b1}) && Bread(was, got, now, dropped, dev, disk, b2, i2) && b1 != b2
    requires i1 < |was| && was[i1].valid && was[i1].dev == dev && was[i1].blockno == b1
    ensures i2 < |was| == |now| && i1 != i2
    ensures now[i1] == was[i1].(refcnt := now[i1].refcnt) && now[i1].refcnt > 0
  {
    hide CacheOf, Unique;
    LentIsCounted(was, dev, s, {b1}, i1);
    InUseIsKept(was, got, dropped, dev, b2, Some(i2), i1);
  }

  /** Two breads in a row, of different blocks. */
  lemma BreadsLend(l: L.Layout, s: L.State, dev: nat, b1: nat, b2: nat, w0: seq<Buf>, g1: seq<Buf>, w1: seq<Buf>,
                   g2: seq<Buf>, w2: seq<Buf>, d1: seq<nat>, d2: seq<nat>, i1: nat, i2: nat)
    requires L.Wf(l, s) && Agrees(w0, dev, s, {}) && b1 != b2
    requires Bread(w0, g1, w1, d1, dev, s.disk, b1, i1) && Bread(w1, g2, w2, d2, dev, s.disk, b2, i2)
    ensures i1 < |w0| && i2 < |w1| == |w2| && i1 != i2 && i1 < |w2|
    ensures w2[i1].valid && w2[i1].dev == dev && w2[i1].blockno == b1 && w2[i1].refcnt > 0
    ensures w2[i2].valid && w2[i2].dev == dev && w2[i2].blockno == b2 && w2[i2].refcnt > 0
    ensures var m := Evicted(Evicted(s, w0, i1, dev, b1), w1, i2, dev, b2);
            && L.Exec(l, s, Victim(w0, i1, dev, b1) + Victim(w1, i2, dev, b2)) == Some(m)
            && m == s.(cache := m.cache) && (forall c :: c in L.Pinned(s) ==> c in m.cache)
            && w2[i1].data == L.Cached(m, b1) && w2[i2].data == L.Cached(m, b2)
            && Agrees(w2, dev, Warm(Warm(m, b1), b2), {b1, b2})
  {
    hide CacheOf, Unique, L.Exec, Victim;
    BreadLends(l, s, {}, w0, g1, w1, d1, dev, b1, i1);
    var m1 := Evicted(s, w0, i1, dev, b1);
    assert {} + {b1} == {b1};
    BreadLends(l, Warm(m1, b1), {b1}, w1, g2, w2, d2, dev, b2, i2);
    MissIsUnused(w1, g2, d2, dev, b2, i2);
    EvictsCold(l, m1, {b1}, w1, dev, b1, b2, i2);
    T.ExecConcat(l, s, Victim(w0, i1, dev, b1), Victim(w1, i2, dev, b2));
    assert {b1} + {b2} == {b1, b2};
    StillThere(w1, g2, w2, d2, dev, s.disk, b1, b2, i1, i2, Warm(m1, b1));
    EvictedOnly(m1, w1, i2, dev, b2);
    LentIsCounted(w2, dev, Warm(Warm(Evicted(m1, w1, i2, dev, b2), b1), b2), {b1, b2}, i2);
  }

  /** One reference fewer. */
  function Dropped(bufs: seq<Buf>, i: nat): seq<Buf>
    requires i < |bufs|
  {
    bufs[i := bufs[i].(refcnt := if bufs[i].refcnt > 0 then bufs[i].refcnt - 1 else 0)]
  }

  function Filled(bufs: seq<Buf>, i: nat, data: L.Block): seq<Buf>
    requires i < |bufs|
  {
    bufs[i := bufs[i].(data := data)]
  }

  lemma DroppedUnique(bufs: seq<Buf>, i: nat)
    requires Unique(bufs) && i < |bufs|
    ensures Unique(Dropped(bufs, i))
  {
  }

  lemma FilledUnique(bufs: seq<Buf>, i: nat, data: L.Block)
    requires Unique(bufs) && i < |bufs|
    ensures Unique(Filled(bufs, i, data))
  {
  }

  lemma AgreesUnique(bufs: seq<Buf>, dev: nat, s: L.State, lent: set<nat>)
    requires Agrees(bufs, dev, s, lent)
    ensures Unique(bufs)
  {
  }

  /** brelse of what was lent, if it was lent. */
  lemma Returned(s: L.State, lent: set<nat>, was: seq<Buf>, dev: nat, i: nat)
    requires Agrees(was, dev, s, lent) && i < |was| && was[i].valid && was[i].dev == dev && was[i].blockno in lent
    ensures Agrees(Dropped(was, i), dev, s, lent - {was[i].blockno})
  {
    hide Agrees, Unique;
    LentIsCounted(was, dev, s, lent, i);
    AgreesUnique(was, dev, s, lent);
    DroppedUnique(was, i);
    BrelseReturns(s, lent, was, Dropped(was, i), dev, i);
  }

  /** The two blocks that were lent are released, the one in i2 first or last. */
  lemma BothReturned(s: L.State, was: seq<Buf>, dev: nat, b1: nat, b2: nat, i1: nat, i2: nat)
    requires Agrees(was, dev, s, {b1, b2}) && b1 != b2 && i1 < |was| && i2 < |was| && i1 != i2
    requires was[i1].valid && was[i1].dev == dev && was[i1].blockno == b1
    requires was[i2].valid && was[i2].dev == dev && was[i2].blockno == b2
    ensures Agrees(Dropped(Dropped(was, i1), i2), dev, s, {}) && Agrees(Dropped(Dropped(was, i2), i1), dev, s, {})
  {
    hide Agrees;
    Returned(s, {b1, b2}, was, dev, i1);
    assert {b1, b2} - {b1} == {b2} && {b2} - {b2} == {};
    Returned(s, {b2}, Dropped(was, i1), dev, i2);
    Returned(s, {b1, b2}, was, dev, i2);
    assert {b1, b2} - {b2} == {b1} && {b1} - {b1} == {};
    Returned(s, {b1}, Dropped(was, i2), dev, i1);
  }

  /**
  One pass of write_log: the log's slot and the block are read, the slot is overwritten with the block and
  written to disk, and both are released. That is the machine's Copy, after the evictions the reads may cause.
  */
  lemma CopyIsBuffers(l: L.Layout, s: L.State, dev: nat, w0: seq<Buf>, g1: seq<Buf>, w1: seq<Buf>, g2: seq<Buf>,
                      w2: seq<Buf>, d1: seq<nat>, d2: seq<nat>, i1: nat, i2: nat)
    requires L.Wf(l, s) && Agrees(w0, dev, s, {}) && s.phase.CopyToLog? && s.phase.tail < |s.lh|
    requires s.lh[s.phase.tail] !in s.held
    requires Bread(w0, g1, w1, d1, dev, s.disk, l.Slot(s.phase.tail), i1)
    requires Bread(w1, g2, w2, d2, dev, s.disk, s.lh[s.phase.tail], i2)
    ensures i1 < |w0| && i2 < |w1| && i1 < |w2| && i2 < |w2|
    ensures var es := Victim(w0, i1, dev, l.Slot(s.phase.tail)) + Victim(w1, i2, dev, s.lh[s.phase.tail]);
            var r := L.Exec(l, s, es + [L.Copy]);
            r.Some? && Agrees(Dropped(Dropped(Filled(w2, i1, w2[i2].data), i2), i1), dev, r.value, {})
  {
    hide CacheOf, Unique, L.Exec, Victim, Agrees;
    var slot, home := l.Slot(s.phase.tail), s.lh[s.phase.tail];
    BreadsLend(l, s, dev, slot, home, w0, g1, w1, g2, w2, d1, d2, i1, i2);
    var m := Evicted(Evicted(s, w0, i1, dev, slot), w1, i2, dev, home);
    T.Extend(l, s, Victim(w0, i1, dev, slot) + Victim(w1, i2, dev, home), m, L.Copy);
    var s' := L.Next(l, m, L.Copy).value;
    var warm, w3 := Warm(Warm(m, slot), home), Filled(w2, i1, w2[i2].data);
    assert home in m.cache;
    assert s'.cache == warm.cache[slot := w3[i1].data];
    AgreesUnique(w2, dev, warm, {slot, home});
    FilledUnique(w2, i1, w2[i2].data);
    Rewrites(warm, s', {slot, home}, w2, w3, dev, i1, 0);
    BothReturned(s', w3, dev, slot, home, i1, i2);
  }

  /**
  One pass of install_trans: the log's slot and the home block are read, the home block is overwritten and written
  to disk, unpinned unless recovering, and both are released. That is the machine's InstallOne.
  */
  lemma InstallIsBuffers(l: L.Layout, s: L.State, dev: nat, w0: seq<Buf>, g1: seq<Buf>, w1: seq<Buf>, g2: seq<Buf>,
                         w2: seq<Buf>, d1: seq<nat>, d2: seq<nat>, i1: nat, i2: nat)
    requires L.Wf(l, s) && Agrees(w0, dev, s, {}) && (s.phase.Install? || s.phase.Reinstall?)
    requires s.phase.tail < |s.lh| && s.lh[s.phase.tail] !in s.held
    requires Bread(w0, g1, w1, d1, dev, s.disk, l.Slot(s.phase.tail), i1)
    requires Bread(w1, g2, w2, d2, dev, s.disk, s.lh[s.phase.tail], i2)
    ensures i1 < |w0| && i2 < |w1| && i1 < |w2| && i2 < |w2|
    ensures var es := Victim(w0, i1, dev, l.Slot(s.phase.tail)) + Victim(w1, i2, dev, s.lh[s.phase.tail]);
            var r := L.Exec(l, s, es + [L.InstallOne]);
            var w3 := Filled(w2, i2, w2[i1].data);
            var w4 := if s.phase.Install? then Dropped(w3, i2) else w3;
            r.Some? && Agrees(Dropped(Dropped(w4, i1), i2), dev, r.value, {})
  {
    hide CacheOf, Unique, L.Exec, Victim, Agrees, L.Next, L.Wf, Evicted, L.Pinned;
    var slot, home := l.Slot(s.phase.tail), s.lh[s.phase.tail];
    Installs(l, s, s);
    BreadsLend(l, s, dev, slot, home, w0, g1, w1, g2, w2, d1, d2, i1, i2);
    var m := Evicted(Evicted(s, w0, i1, dev, slot), w1, i2, dev, home);
    T.Extend(l, s, Victim(w0, i1, dev, slot) + Victim(w1, i2, dev, home), m, L.InstallOne);
    Installs(l, s, m);
    var s' := L.Next(l, m, L.InstallOne).value;
    var warm, w3 := Warm(Warm(m, slot), home), Filled(w2, i2, w2[i1].data);
    var w4 := if s.phase.Install? then Dropped(w3, i2) else w3;
    assert s'.cache == warm.cache[home := w4[i2].data];
    AgreesUnique(w2, dev, warm, {slot, home});
    FilledUnique(w2, i2, w2[i1].data);
    DroppedUnique(w3, i2);
    SamePinned(s, warm);
    Rewrites(warm, s', {slot, home}, w2, w4, dev, i2, if s.phase.Install? then 1 else 0);
    BothReturned(s', w4, dev, slot, home, i1, i2);
  }

  lemma InstallPlaces(l: L.Layout, s: L.State)
    requires L.Wf(l, s) && (s.phase.Install? || s.phase.Reinstall?) && s.phase.tail < |s.lh|
    ensures |s.disk| == l.blocks
    ensures l.Slot(s.phase.tail) < |s.disk| && s.lh[s.phase.tail] < |s.disk|
    ensures l.Slot(s.phase.tail) != s.lh[s.phase.tail]
  {
  }

  lemma InstallPins(l: L.Layout, s: L.State, s': L.State)
    requires L.Wf(l, s) && (s.phase.Install? || s.phase.Reinstall?) && s.phase.tail < |s.lh| && s'.lh == s.lh
    requires s'.phase == if s.phase.Install? then L.Install(s.phase.tail + 1) else L.Reinstall(s.phase.tail + 1)
    ensures (forall c :: c in L.Pinned(s') ==> c in L.Pinned(s)) && s.lh[s.phase.tail] !in L.Pinned(s')
    ensures s.phase.Install? ==> s.lh[s.phase.tail] in L.Pinned(s)
  {
    var t := s.phase.tail;
    if s.phase.Install? { assert s.lh[t..] == [s.lh[t]] + s.lh[t + 1..]; }
  }

  lemma Installs(l: L.Layout, s: L.State, m: L.State)
    requires L.Wf(l, s) && L.Wf(l, m) && m == s.(cache := m.cache)
    requires (s.phase.Install? || s.phase.Reinstall?) && s.phase.tail < |s.lh| && s.lh[s.phase.tail] !in s.held
    ensures l.Slot(s.phase.tail) < |s.disk| && s.lh[s.phase.tail] < |s.disk|
    ensures l.Slot(s.phase.tail) != s.lh[s.phase.tail] && L.Next(l, m, L.InstallOne).Some?
    ensures var slot, home, s' := l.Slot(s.phase.tail), s.lh[s.phase.tail], L.Next(l, m, L.InstallOne).value;
            && s'.cache == Warm(Warm(m, slot), home).cache[home := L.Cached(m, slot)] && s'.held == s.held
            && (forall c :: c in L.Pinned(s') ==> c in L.Pinned(s)) && home !in L.Pinned(s')
            && (s.phase.Install? ==> home in L.Pinned(s))
  {
    hide L.Wf, L.Pinned;
    InstallPlaces(l, s);
    InstallPins(l, s, L.Next(l, m, L.InstallOne).value);
  }

  /** write_head: the header block is read, overwritten, written and released. */
  lemma HeadIsBuffers(l: L.Layout, s: L.State, e: L.Event, dev: nat, w0: seq<Buf>, g1: seq<Buf>, w1: seq<Buf>,
                      d1: seq<nat>, i1: nat)
    requires L.Wf(l, s) && Agrees(w0, dev, s, {}) && (e == L.CommitPoint || e == L.Erase) && L.Next(l, s, e).Some?
    requires Bread(w0, g1, w1, d1, dev, s.disk, l.start, i1)
    ensures i1 < |w0| && i1 < |w1|
    ensures var r := L.Exec(l, s, Victim(w0, i1, dev, l.start) + [e]);
            var head := L.EncodeHead(w1[i1].data, if e.CommitPoint? then s.lh else []);
            r.Some? && Agrees(Dropped(Filled(w1, i1, head), i1), dev, r.value, {})
  {
    hide CacheOf, Unique, L.Exec, Victim, Agrees;
    BreadLends(l, s, {}, w0, g1, w1, d1, dev, l.start, i1);
    assert {} + {l.start} == {l.start} && {l.start} - {l.start} == {};
    var m := Evicted(s, w0, i1, dev, l.start);
    T.Extend(l, s, Victim(w0, i1, dev, l.start), m, e);
    var s' := L.Next(l, m, e).value;
    var head := L.EncodeHead(w1[i1].data, if e.CommitPoint? then s.lh else []);
    var warm, w2 := Warm(m, l.start), Filled(w1, i1, head);
    assert s'.cache == warm.cache[l.start := head];
    AgreesUnique(w1, dev, warm, {l.start});
    FilledUnique(w1, i1, head);
    Rewrites(warm, s', {l.start}, w1, w2, dev, i1, 0);
    Returned(s', {l.start}, w2, dev, i1);
  }
}
