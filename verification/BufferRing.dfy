/**
The buffer cache of kernel/bio.c. Buffers are numbered 0 .. NBUF - 1 and the list head, a buffer of
its own, is number HEAD; prev and next hold the list's pointers. Each method is the part of the
function of its name that runs under bcache.lock, so any interleaving of callers is a sequence of them.
*/
module Ring {
  import opened Sequences

  /** The list read along next from the head; it starts with the head. */
  ghost predicate IsRing(head: nat, next: seq<nat>, prev: seq<nat>, ring: seq<nat>) {
    && |next| == |prev| && |ring| > 0 && ring[0] == head
    && (forall i :: 0 <= i < |ring| ==> ring[i] < |next|)
    && Distinct(ring)
    && (forall i :: 0 <= i < |ring| ==> Linked(next, prev, ring[i], After(ring, i)))
  }

  predicate Linked(next: seq<nat>, prev: seq<nat>, a: nat, b: nat) {
    a < |next| && b < |prev| && next[a] == b && prev[b] == a
  }

  function After(ring: seq<nat>, i: nat): nat
    requires i < |ring|
  {
    if i + 1 < |ring| then ring[i + 1] else ring[0]
  }

  function Remove(ring: seq<nat>, k: nat): seq<nat>
    requires k < |ring|
  {
    ring[..k] + ring[k + 1..]
  }

  function InsertFirst(ring: seq<nat>, b: nat): seq<nat>
    requires |ring| > 0
  {
    [ring[0], b] + ring[1..]
  }

  /** b->next->prev = b->prev; b->prev->next = b->next */
  lemma Unlinked(head: nat, next: seq<nat>, prev: seq<nat>, ring: seq<nat>, k: nat)
    requires IsRing(head, next, prev, ring) && 0 < k < |ring|
    ensures var b := ring[k]; b < |next| && next[b] < |prev| && prev[b] < |next|
    ensures var b := ring[k]; IsRing(head, next[prev[b] := next[b]], prev[next[b] := prev[b]], Remove(ring, k))
    ensures ring[k] !in Remove(ring, k)
  {
    var b := ring[k];
    var r := Remove(ring, k);
    assert Linked(next, prev, ring[k - 1], After(ring, k - 1)) && Linked(next, prev, ring[k], After(ring, k));
    assert forall i :: 0 <= i < |r| ==> r[i] == ring[if i < k then i else i + 1];
    forall i | 0 <= i < |r| ensures Linked(next[prev[b] := next[b]], prev[next[b] := prev[b]], r[i], After(r, i)) {
      UnlinkedAt(head, next, prev, ring, k, i);
    }
  }

  lemma UnlinkedAt(head: nat, next: seq<nat>, prev: seq<nat>, ring: seq<nat>, k: nat, i: nat)
    requires IsRing(head, next, prev, ring) && 0 < k < |ring| && i < |ring| - 1
    requires var b := ring[k]; b < |next| && next[b] < |prev| && prev[b] < |next|
    ensures var b := ring[k]; var r := Remove(ring, k);
      Linked(next[prev[b] := next[b]], prev[next[b] := prev[b]], r[i], After(r, i))
  {
    assert Linked(next, prev, ring[k - 1], After(ring, k - 1)) && Linked(next, prev, ring[k], After(ring, k));
    var i' := if i < k then i else i + 1;
    assert Linked(next, prev, ring[i'], After(ring, i'));
  }

  /** The four pointer writes that link a buffer in right after the head. */
  lemma LinkedFirst(head: nat, next: seq<nat>, prev: seq<nat>, ring: seq<nat>, b: nat)
    requires IsRing(head, next, prev, ring) && b < |next| && b !in ring
    ensures head < |next| && next[head] < |prev|
    ensures IsRing(head, next[b := next[head]][head := b], prev[b := head][next[head] := b], InsertFirst(ring, b))
  {
    var r := InsertFirst(ring, b);
    var next', prev' := next[b := next[head]][head := b], prev[b := head][next[head] := b];
    assert Linked(next, prev, ring[0], After(ring, 0));
    assert forall i :: 0 <= i < |r| ==> r[i] == if i == 0 then head else if i == 1 then b else ring[i - 1];
    forall i | 0 <= i < |r| ensures Linked(next', prev', r[i], After(r, i)) {
      if i >= 2 { assert Linked(next, prev, ring[i - 1], After(ring, i - 1)); }
    }
  }

  /** prev undoes next all the way round. */
  lemma MutualInverses(head: nat, next: seq<nat>, prev: seq<nat>, ring: seq<nat>, b: nat)
    requires IsRing(head, next, prev, ring) && b in ring
    ensures b < |next| && next[b] < |prev| && prev[next[b]] == b && prev[b] < |next| && next[prev[b]] == b
  {
    var i :| 0 <= i < |ring| && ring[i] == b;
    assert Linked(next, prev, ring[i], After(ring, i));
    var j := if i > 0 then i - 1 else |ring| - 1;
    assert Linked(next, prev, ring[j], After(ring, j));
  }
}

module BufferCache {
  import opened Ring
  import opened Sequences
  import opened Wrappers
  import L = LogMachine

  const NBUF: nat := 3 * L.MAXOPBLOCKS
  const HEAD: nat := NBUF

  datatype Buf = Buf(valid: bool, dev: nat, blockno: nat, refcnt: nat, data: L.Block)

  /** A buffer as the C runtime leaves it. */
  function EmptyBuf(): Buf {
    Buf(false, 0, 0, 0, seq(L.WORDS, _ => 0))
  }

  predicate Caches(b: Buf, dev: nat, blockno: nat) {
    b.dev == dev && b.blockno == blockno
  }

  /** No two buffers hold the same block; all start out as block 0 of device 0, which is no device. */
  predicate Unique(bufs: seq<Buf>) {
    forall i, j :: 0 <= i < j < |bufs| && bufs[i].dev != 0 ==> !Caches(bufs[j], bufs[i].dev, bufs[i].blockno)
  }

  /** The ring lists the buffers by the time their last user left them, latest first. */
  ghost predicate ByLastDrop(ring: seq<nat>, dropped: seq<nat>) {
    forall i, j :: 1 <= i < j < |ring| && ring[i] < |dropped| && ring[j] < |dropped| ==>
        dropped[ring[i]] > dropped[ring[j]]
  }

  /** Of the unused buffers, b is the one whose last user left first. */
  ghost predicate LeastRecentlyUsed(bufs: seq<Buf>, dropped: seq<nat>, b: nat) {
    && |dropped| == |bufs| && b < |bufs| && bufs[b].refcnt == 0
    && forall c :: 0 <= c < |bufs| && bufs[c].refcnt == 0 ==> dropped[b] <= dropped[c]
  }

  // ---- the ring as a sequence ----

  /** The ring after the first n buffers have been linked in. */
  predicate Descending(r: seq<nat>, n: nat) {
    |r| == n + 1 && r[0] == HEAD && forall i {:trigger r[i]} :: 1 <= i <= n ==> r[i] == n - i
  }

  lemma RingOfOne(next: seq<nat>, prev: seq<nat>)
    requires |next| == |prev| == NBUF + 1 && next[HEAD] == prev[HEAD] == HEAD
    ensures IsRing(HEAD, next, prev, [HEAD]) && Descending([HEAD], 0)
  {
  }

  lemma NotYet(r: seq<nat>, b: nat)
    requires Descending(r, b) && b < NBUF
    ensures b !in r && |r| > 0 && Descending(InsertFirst(r, b), b + 1)
  {
    assert forall i :: 0 <= i < |InsertFirst(r, b)| ==>
           InsertFirst(r, b)[i] == if i == 0 then r[0] else if i == 1 then b else r[i - 1];
  }

  lemma AllThere(r: seq<nat>)
    requires Descending(r, NBUF)
    ensures (forall b: nat :: b <= NBUF ==> b in r) && ByLastDrop(r, seq(NBUF, i => i))
  {
    forall b: nat | b <= NBUF ensures b in r { assert r[NBUF - b] == b || b == HEAD; }
  }

  lemma RingFacts(head: nat, next: seq<nat>, prev: seq<nat>, ring: seq<nat>)
    requires IsRing(head, next, prev, ring)
    ensures |ring| > 0 && ring[0] == head < |next| && |next| == |prev| && Distinct(ring)
    ensures forall i :: 0 <= i < |ring| ==> ring[i] < |next|
  {
  }

  lemma RingAt(head: nat, next: seq<nat>, prev: seq<nat>, ring: seq<nat>, i: nat)
    requires IsRing(head, next, prev, ring) && i < |ring|
    ensures ring[i] < |next| == |prev| && next[ring[i]] == After(ring, i) && After(ring, i) < |prev|
    ensures prev[After(ring, i)] == ring[i]
    ensures i > 0 ==> ring[i] != head
  {
    assert Linked(next, prev, ring[i], After(ring, i));
    if i > 0 { assert ring[0] != ring[i]; }
  }

  lemma InRing(ring: seq<nat>, b: nat)
    requires b in ring
    ensures exists i: nat :: i < |ring| && ring[i] == b
  {
  }

  /** The same blocks in the same buffers. */
  lemma SameKeysUnique(a: seq<Buf>, b: seq<Buf>)
    requires Unique(a) && |a| == |b|
    requires forall i :: 0 <= i < |a| ==> b[i].dev == a[i].dev && b[i].blockno == a[i].blockno
    ensures Unique(b)
  {
  }

  /** b->next = head.next; b->prev = &head; head.next->prev = b; head.next = b */
  method LinkFirst(next: array<nat>, prev: array<nat>, ghost ring: seq<nat>, b: nat)
    requires next != prev && next.Length == prev.Length == NBUF + 1 && b < NBUF
    requires IsRing(HEAD, next[..], prev[..], ring) && b !in ring
    modifies next, prev
    ensures |ring| > 0 && IsRing(HEAD, next[..], prev[..], InsertFirst(ring, b))
  {
    hide IsRing, InsertFirst;
    RingFacts(HEAD, next[..], prev[..], ring);
    LinkedFirst(HEAD, next[..], prev[..], ring, b);
    ghost var nx: seq<nat>, pv: seq<nat> := next[..], prev[..];
    next[b] := next[HEAD];
    prev[b] := HEAD;
    prev[next[HEAD]] := b;
    next[HEAD] := b;
    assert next[..] == nx[b := nx[HEAD]][HEAD := b];
    assert prev[..] == pv[b := HEAD][nx[HEAD] := b];
  }

  lemma Index(ring: seq<nat>, b: nat) returns (k: nat)
    requires b in ring && |ring| > 0 && ring[0] != b
    ensures 0 < k < |ring| && ring[k] == b
  {
    k :| 0 <= k < |ring| && ring[k] == b;
  }

  /** Coming from the tail of the ring, the first unused buffer. */
  lemma LastIsLru(bufs: seq<Buf>, ring: seq<nat>, dropped: seq<nat>, i: nat)
    requires |bufs| == |dropped| == NBUF && 1 <= i < |ring| && ring[i] < NBUF && bufs[ring[i]].refcnt == 0
    requires ByLastDrop(ring, dropped)
    requires |ring| > 0 && ring[0] == HEAD && forall b: nat :: b <= NBUF ==> b in ring
    requires forall j :: i < j < |ring| ==> ring[j] < NBUF && bufs[ring[j]].refcnt > 0
    ensures LeastRecentlyUsed(bufs, dropped, ring[i])
  {
    forall c | 0 <= c < |bufs| && bufs[c].refcnt == 0 ensures dropped[ring[i]] <= dropped[c] {
      var j := Index(ring, c);
    }
  }

  lemma GivenUnique(bufs: seq<Buf>, b: nat, now: Buf)
    requires Unique(bufs) && b < |bufs| && forall c :: 0 <= c < |bufs| ==> !Caches(bufs[c], now.dev, now.blockno)
    ensures Unique(bufs[b := now])
  {
  }

  lemma RestRing(nx: seq<nat>, pv: seq<nat>, next: seq<nat>, prev: seq<nat>, ring: seq<nat>, k: nat)
    requires IsRing(HEAD, nx, pv, ring) && 0 < k < |ring|
    requires ring[k] < |nx| && nx[ring[k]] < |pv| && pv[ring[k]] < |nx|
    requires next == nx[pv[ring[k]] := nx[ring[k]]] && prev == pv[nx[ring[k]] := pv[ring[k]]]
    ensures IsRing(HEAD, next, prev, Remove(ring, k)) && ring[k] !in Remove(ring, k)
  {
    Unlinked(HEAD, nx, pv, ring, k);
  }

  lemma MovedIs(ring: seq<nat>, k: nat)
    requires 0 < k < |ring|
    ensures |Remove(ring, k)| > 0
    ensures var r := InsertFirst(Remove(ring, k), ring[k]);
      && |r| == |ring| && r[0] == ring[0] && r[1] == ring[k]
      && (forall i {:trigger r[i]} :: 2 <= i < |r| ==> r[i] == ring[if i <= k then i - 1 else i])
    ensures forall i :: 0 <= i < |ring| ==>
              var j := if i == 0 then 0 else if i == k then 1 else if i < k then i + 1 else i;
              InsertFirst(Remove(ring, k), ring[k])[j] == ring[i]
  {
  }

  lemma MovedHasAll(ring: seq<nat>, k: nat, b: nat)
    requires 0 < k < |ring| && b in ring
    ensures |Remove(ring, k)| > 0 && b in InsertFirst(Remove(ring, k), ring[k])
  {
    hide Remove, InsertFirst;
    MovedIs(ring, k);
    var i :| 0 <= i < |ring| && ring[i] == b;
    var j := if i == 0 then 0 else if i == k then 1 else if i < k then i + 1 else i;
    assert InsertFirst(Remove(ring, k), ring[k])[j] == b;
  }

  /** Moving a buffer to the front, as dropped last of all. */
  lemma MovedKeeps(ring: seq<nat>, k: nat, dropped: seq<nat>, now: nat)
    requires 0 < k < |ring| && ring[0] == HEAD && Distinct(ring) && ring[k] < |dropped| == NBUF
    requires ByLastDrop(ring, dropped)
    requires (forall b :: 0 <= b < NBUF ==> dropped[b] < now) && (forall b: nat :: b <= NBUF ==> b in ring)
    ensures |Remove(ring, k)| > 0
    ensures var r := InsertFirst(Remove(ring, k), ring[k]);
      ByLastDrop(r, dropped[ring[k] := now]) && forall b: nat :: b <= NBUF ==> b in r
  {
    hide Remove, InsertFirst, Distinct;
    MovedIs(ring, k);
    var r := InsertFirst(Remove(ring, k), ring[k]);
    forall b: nat | b <= NBUF ensures b in r { MovedHasAll(ring, k, b); }
    forall i, j | 1 <= i < j < |r| && r[i] < NBUF && r[j] < NBUF
      ensures dropped[ring[k] := now][r[i]] > dropped[ring[k] := now][r[j]]
    {
      var j' := if j <= k then j - 1 else j;
      DistinctAt(ring, j', k);
      if i > 1 { DistinctAt(ring, if i <= k then i - 1 else i, k); }
    }
  }

  lemma DistinctAt(ring: seq<nat>, i: nat, j: nat)
    requires Distinct(ring) && i < |ring| && j < |ring| && i != j
    ensures ring[i] != ring[j]
  {
  }

  lemma FirstIs(next: seq<nat>, prev: seq<nat>, rest: seq<nat>, b: nat)
    requires |rest| > 0 && IsRing(HEAD, next, prev, InsertFirst(rest, b))
    ensures |next| > HEAD && next[HEAD] == b
  {
    var r := InsertFirst(rest, b);
    assert Linked(next, prev, r[0], After(r, 0));
  }

  lemma SecondIs(next: seq<nat>, prev: seq<nat>, ring: seq<nat>)
    requires IsRing(HEAD, next, prev, ring) && forall b: nat :: b <= NBUF ==> b in ring
    ensures |ring| > 1 && |next| > HEAD && next[HEAD] == ring[1]
  {
    var k := Index(ring, 0);
    assert Linked(next, prev, ring[0], After(ring, 0));
  }

  /** Dropped last, b must come first. */
  lemma DropOrder(ring: seq<nat>, dropped: seq<nat>, b: nat, now: nat)
    requires |ring| > 1 && ring[0] == HEAD && Distinct(ring) && b in ring && b < NBUF == |dropped|
    requires ByLastDrop(ring, dropped)
    requires forall c :: 0 <= c < NBUF ==> dropped[c] < now
    requires forall i :: 0 <= i < |ring| ==> ring[i] <= NBUF
    ensures ByLastDrop(ring, dropped[b := now]) <==> ring[1] == b
  {
    var k := Index(ring, b);
    forall i | 0 <= i < |ring| && i != k ensures ring[i] != b { DistinctAt(ring, i, k); }
    if k != 1 {
      DistinctAt(ring, 0, 1);
      assert dropped[b := now][ring[1]] < dropped[b := now][ring[k]];
    }
  }

  /** What bget may make of the buffers; None is its panic, when every buffer is in use. */
  ghost predicate Got(was: seq<Buf>, now: seq<Buf>, dropped: seq<nat>, dev: nat, blockno: nat, r: Option<nat>) {
    && |was| == |now| == NBUF
    && match r
       case None => now == was && forall b :: 0 <= b < NBUF ==> was[b].refcnt > 0 && !Caches(was[b], dev, blockno)
       case Some(b) =>
         && b < NBUF
         && if Caches(was[b], dev, blockno) then now == was[b := was[b].(refcnt := was[b].refcnt + 1)]
            else
              && (forall c :: 0 <= c < NBUF ==> !Caches(was[c], dev, blockno))
              && LeastRecentlyUsed(was, dropped, b) && now == was[b := Buf(false, dev, blockno, 1, was[b].data)]
  }

  /** A buffer somebody holds or has pinned goes on holding its block, with the same bytes. */
  lemma InUseIsKept(was: seq<Buf>, now: seq<Buf>, dropped: seq<nat>, dev: nat, blockno: nat, r: Option<nat>, c: nat)
    requires Got(was, now, dropped, dev, blockno, r) && c < NBUF && was[c].refcnt > 0
    ensures now[c].refcnt >= was[c].refcnt && now[c] == was[c].(refcnt := now[c].refcnt)
  {
  }

  // ---- the cache as a map from block number to contents, for one device ----

  function CacheOf(bufs: seq<Buf>, dev: nat): map<nat, L.Block> {
    if bufs == [] then map[]
    else
      var b := bufs[|bufs| - 1];
      var m := CacheOf(bufs[..|bufs| - 1], dev);
      if b.valid && b.dev == dev then m[b.blockno := b.data] else m
  }

  lemma {:induction false} NothingCached(bufs: seq<Buf>, dev: nat)
    requires forall b <- bufs :: !b.valid
    ensures CacheOf(bufs, dev) == map[]
  {
    if bufs != [] { NothingCached(bufs[..|bufs| - 1], dev); }
  }

  lemma {:induction false} Where(bufs: seq<Buf>, dev: nat, k: nat) returns (i: nat)
    requires k in CacheOf(bufs, dev)
    ensures i < |bufs| && bufs[i].valid && Caches(bufs[i], dev, k) && CacheOf(bufs, dev)[k] == bufs[i].data
    decreases |bufs|
  {
    var b := bufs[|bufs| - 1];
    if b.valid && Caches(b, dev, k) { i := |bufs| - 1; } else { i := Where(bufs[..|bufs| - 1], dev, k); }
  }

  lemma {:induction false} Present(bufs: seq<Buf>, dev: nat, i: nat)
    requires i < |bufs| && bufs[i].valid && bufs[i].dev == dev
    ensures bufs[i].blockno in CacheOf(bufs, dev)
    decreases |bufs|
  {
    if i < |bufs| - 1 { Present(bufs[..|bufs| - 1], dev, i); }
  }

  lemma CacheAt(bufs: seq<Buf>, dev: nat, i: nat)
    requires Unique(bufs) && dev != 0 && i < |bufs| && bufs[i].valid && bufs[i].dev == dev
    ensures bufs[i].blockno in CacheOf(bufs, dev) && CacheOf(bufs, dev)[bufs[i].blockno] == bufs[i].data
  {
    hide CacheOf;
    Present(bufs, dev, i);
    var j := Where(bufs, dev, bufs[i].blockno);
    if i != j { UniqueAt(bufs, i, j); }
  }

  lemma SameCache(a: seq<Buf>, b: seq<Buf>, dev: nat)
    requires Unique(a) && Unique(b) && dev != 0 && |a| == |b|
    requires forall i :: 0 <= i < |a| ==> b[i] == a[i].(refcnt := b[i].refcnt)
    ensures CacheOf(a, dev) == CacheOf(b, dev)
  {
    SubCache(a, b, dev);
    SubCache(b, a, dev);
  }

  lemma SubCache(a: seq<Buf>, b: seq<Buf>, dev: nat)
    requires Unique(a) && Unique(b) && dev != 0 && |a| == |b|
    requires forall i :: 0 <= i < |a| ==> b[i] == a[i].(refcnt := b[i].refcnt)
    ensures forall k :: k in CacheOf(a, dev) ==> k in CacheOf(b, dev) && CacheOf(b, dev)[k] == CacheOf(a, dev)[k]
  {
    hide CacheOf, Unique;
    forall k | k in CacheOf(a, dev) ensures k in CacheOf(b, dev) && CacheOf(b, dev)[k] == CacheOf(a, dev)[k] {
      var i := Where(a, dev, k);
      CacheAt(a, dev, i);
      CacheAt(b, dev, i);
    }
  }

  /** Recycling a buffer forgets the block it held, and nothing else. */
  lemma RecycledCache(a: seq<Buf>, v: nat, now: Buf, dev: nat)
    requires Unique(a) && v < |a| && Unique(a[v := now]) && dev != 0 && !now.valid
    ensures CacheOf(a[v := now], dev) ==
            if a[v].valid && a[v].dev == dev then CacheOf(a, dev) - {a[v].blockno} else CacheOf(a, dev)
  {
    hide CacheOf, Unique;
    var b := a[v := now];
    var m := if a[v].valid && a[v].dev == dev then CacheOf(a, dev) - {a[v].blockno} else CacheOf(a, dev);
    forall k ensures k in CacheOf(b, dev) ==> k in m && CacheOf(b, dev)[k] == m[k] {
      if k in CacheOf(b, dev) {
        var i := Where(b, dev, k);
        CacheAt(a, dev, i);
        CacheAt(b, dev, i);
        UniqueAt(a, i, v);
      }
    }
    forall k ensures k in m ==> k in CacheOf(b, dev) {
      if k in m {
        var i := Where(a, dev, k);
        CacheAt(b, dev, i);
      }
    }
  }

  lemma UniqueAt(bufs: seq<Buf>, i: nat, j: nat)
    requires Unique(bufs) && i < |bufs| && j < |bufs| && i != j && bufs[i].dev != 0
    ensures !Caches(bufs[j], bufs[i].dev, bufs[i].blockno)
  {
  }

  /** Reading a block in adds it. */
  lemma FilledCache(a: seq<Buf>, v: nat, data: L.Block, dev: nat)
    requires Unique(a) && dev != 0 && v < |a| && a[v].dev == dev && (a[v].valid ==> data == a[v].data)
    requires Unique(a[v := a[v].(valid := true, data := data)])
    ensures CacheOf(a[v := a[v].(valid := true, data := data)], dev) == CacheOf(a, dev)[a[v].blockno := data]
  {
    hide CacheOf, Unique;
    var b := a[v := a[v].(valid := true, data := data)];
    var m := CacheOf(a, dev)[a[v].blockno := data];
    CacheAt(b, dev, v);
    forall k ensures k in CacheOf(b, dev) ==> k in m && CacheOf(b, dev)[k] == m[k] {
      if k in CacheOf(b, dev) && k != a[v].blockno {
        var i := Where(b, dev, k);
        CacheAt(a, dev, i);
        CacheAt(b, dev, i);
      }
    }
    forall k ensures k in m ==> k in CacheOf(b, dev) {
      if k in m && k != a[v].blockno {
        var i := Where(a, dev, k);
        CacheAt(b, dev, i);
      }
    }
  }

  lemma NoVictim(m: map<nat, L.Block>)
    ensures m - {} == m
  {
  }

  lemma BreadHit(was: seq<Buf>, got: seq<Buf>, dropped: seq<nat>, dev: nat, blockno: nat, b: nat)
    requires Unique(was) && Unique(got) && dev != 0 && Got(was, got, dropped, dev, blockno, Some(b))
    requires Caches(was[b], dev, blockno)
    ensures CacheOf(got, dev) == CacheOf(was, dev)
    ensures blockno in CacheOf(was, dev) <==> was[b].valid
    ensures was[b].valid ==> CacheOf(was, dev)[blockno] == was[b].data
  {
    hide CacheOf, Unique, LeastRecentlyUsed;
    SameCache(was, got, dev);
    if was[b].valid {
      CacheAt(was, dev, b);
    } else {
      OnlyOne(was, dev, blockno, b);
      NotCached(was, dev, blockno, b);
    }
  }

  lemma OnlyOne(bufs: seq<Buf>, dev: nat, blockno: nat, b: nat)
    requires Unique(bufs) && dev != 0 && b < |bufs| && Caches(bufs[b], dev, blockno)
    ensures forall c :: 0 <= c < |bufs| && c != b ==> !Caches(bufs[c], dev, blockno)
  {
  }

  lemma BreadMiss(was: seq<Buf>, got: seq<Buf>, dropped: seq<nat>, dev: nat, blockno: nat, b: nat)
    requires Unique(was) && Unique(got) && dev != 0 && Got(was, got, dropped, dev, blockno, Some(b))
    requires !Caches(was[b], dev, blockno)
    ensures CacheOf(got, dev) ==
            CacheOf(was, dev) - (if was[b].valid && was[b].dev == dev then {was[b].blockno} else {})
    ensures blockno !in CacheOf(was, dev) && was[b].refcnt == 0
  {
    hide CacheOf, Unique;
    RecycledCache(was, b, Buf(false, dev, blockno, 1, was[b].data), dev);
    NotCached(was, dev, blockno, b);
    NoVictim(CacheOf(was, dev));
  }

  /**
  bread is the plain map's: it returns the cached contents, or else the disk's; the block is cached
  from then on; and of the others at most one is forgotten, which nobody held or had pinned.
  */
  lemma BreadRefinesMap(was: seq<Buf>, got: seq<Buf>, now: seq<Buf>, dropped: seq<nat>, dev: nat, blockno: nat, b: nat,
                        onDisk: L.Block)
    requires Unique(was) && Unique(got) && Unique(now) && dev != 0 && Got(was, got, dropped, dev, blockno, Some(b))
    requires now == got[b := got[b].(valid := true, data := if got[b].valid then got[b].data else onDisk)]
    ensures now[b].data == if blockno in CacheOf(was, dev) then CacheOf(was, dev)[blockno] else onDisk
    ensures exists victims: set<nat> ::
              && |victims| <= 1 && blockno !in victims &&
                 CacheOf(now, dev) == (CacheOf(was, dev) - victims)[blockno := now[b].data]
              && (victims != {} ==> was[b].refcnt == 0 && victims == {was[b].blockno})
  {
    hide CacheOf, Unique, LeastRecentlyUsed;
    FilledCache(got, b, now[b].data, dev);
    if Caches(was[b], dev, blockno) {
      BreadHit(was, got, dropped, dev, blockno, b);
      NoVictim(CacheOf(was, dev));
    } else {
      BreadMiss(was, got, dropped, dev, blockno, b);
      var victims := if was[b].valid && was[b].dev == dev then {was[b].blockno} else {};
      assert CacheOf(got, dev) == CacheOf(was, dev) - victims;
    }
  }

  lemma NotCached(bufs: seq<Buf>, dev: nat, blockno: nat, b: nat)
    requires Unique(bufs) && dev != 0 && b < |bufs|
    requires forall c :: 0 <= c < |bufs| && c != b ==> !Caches(bufs[c], dev, blockno)
    requires !Caches(bufs[b], dev, blockno) || !bufs[b].valid
    ensures blockno !in CacheOf(bufs, dev)
  {
    hide CacheOf;
    if blockno in CacheOf(bufs, dev) { var i := Where(bufs, dev, blockno); }
  }

  class BufCache {
    const bufs: array<Buf>
    const next: array<nat>
    const prev: array<nat>
    ghost var ring: seq<nat>
    ghost var dropped: seq<nat>  // when brelse last took each buffer's last reference
    ghost var now: nat

    ghost predicate Valid()
      reads this, bufs, next, prev
    {
      && next != prev && bufs.Length == NBUF && next.Length == prev.Length == NBUF + 1
      && IsRing(HEAD, next[..], prev[..], ring) && (forall b: nat :: b <= NBUF ==> b in ring)
      && Unique(bufs[..])
      && |dropped| == NBUF && ByLastDrop(ring, dropped) && (forall b :: 0 <= b < NBUF ==> dropped[b] < now)
    }

    /** binit */
    constructor ()
      ensures Valid() && fresh(bufs) && fresh(next) && fresh(prev)
      ensures forall b :: 0 <= b < NBUF ==> bufs[b].refcnt == 0 && !bufs[b].valid && bufs[b].dev == 0
      ensures forall dev :: CacheOf(bufs[..], dev) == map[]
    {
      hide IsRing, Descending, CacheOf;
      var nx := new nat[NBUF + 1](_ => HEAD);
      var pv := new nat[NBUF + 1](_ => HEAD);
      ghost var r := [HEAD];
      RingOfOne(nx[..], pv[..]);
      var b := 0;
      while b < NBUF
        invariant 0 <= b <= NBUF && nx != pv && nx.Length == pv.Length == NBUF + 1 && fresh(nx) && fresh(pv) && nx != pv
        invariant IsRing(HEAD, nx[..], pv[..], r) && Descending(r, b)
      {
        NotYet(r, b);
        LinkFirst(nx, pv, r, b);
        r := InsertFirst(r, b);
        b := b + 1;
      }
      var bs := new Buf[NBUF](_ => EmptyBuf());
      bufs, next, prev, ring, dropped, now := bs, nx, pv, r, seq(NBUF, i => i), NBUF;
      AllThere(r);
      forall dev ensures CacheOf(bs[..], dev) == map[] { NothingCached(bs[..], dev); }
    }

    /** The first half of bget: the buffer that holds the block, if any. A reference is taken to it. */
    method Find(dev: nat, blockno: nat) returns (r: Option<nat>)
      requires Valid()
      modifies bufs
      ensures Valid()
      ensures r.None? ==> bufs[..] == old(bufs[..]) && forall b :: 0 <= b < NBUF ==> !Caches(bufs[b], dev, blockno)
      ensures r.Some? ==>
                && r.value < NBUF && Caches(old(bufs[..])[r.value], dev, blockno)
                && bufs[..] ==
                   old(bufs[..])[r.value := old(bufs[..])[r.value].(refcnt := old(bufs[..])[r.value].refcnt + 1)]
    {
      hide IsRing, ByLastDrop, Unique;
      RingFacts(HEAD, next[..], prev[..], ring);
      var b := next[HEAD];
      ghost var i := 1;
      RingAt(HEAD, next[..], prev[..], ring, 0);
      while b != HEAD
        invariant 1 <= i <= |ring| && b == (if i < |ring| then ring[i] else HEAD) && bufs[..] == old(bufs[..])
        invariant forall j :: 1 <= j < i ==> ring[j] < NBUF && !Caches(bufs[ring[j]], dev, blockno)
        decreases |ring| - i
      {
        RingAt(HEAD, next[..], prev[..], ring, i);
        if Caches(bufs[b], dev, blockno) {
          SameKeysUnique(bufs[..], bufs[..][b := bufs[b].(refcnt := bufs[b].refcnt + 1)]);
          bufs[b] := bufs[b].(refcnt := bufs[b].refcnt + 1);
          return Some(b);
        }
        b := next[b];
        i := i + 1;
      }
      forall b | 0 <= b < NBUF ensures !Caches(bufs[b], dev, blockno) { InRing(ring, b); }
      return None;
    }

    /**
    The second half of bget, for a block no buffer holds: the unused buffer whose last user left first
    is given to it. None when every buffer is in use, where bget panics.
    */
    method Recycle(dev: nat, blockno: nat) returns (r: Option<nat>)
      requires Valid() && forall b :: 0 <= b < NBUF ==> !Caches(bufs[b], dev, blockno)
      modifies bufs
      ensures Valid()
      ensures r.None? ==> bufs[..] == old(bufs[..]) && forall b :: 0 <= b < NBUF ==> bufs[b].refcnt > 0
      ensures r.Some? ==>
                && r.value < NBUF && LeastRecentlyUsed(old(bufs[..]), dropped, r.value)
                && bufs[..] == old(bufs[..])[r.value := Buf(false, dev, blockno, 1, old(bufs[..])[r.value].data)]
    {
      hide IsRing, ByLastDrop, Unique;
      RingFacts(HEAD, next[..], prev[..], ring);
      ghost var i := |ring| - 1;
      RingAt(HEAD, next[..], prev[..], ring, i);
      var b := prev[HEAD];
      while b != HEAD
        invariant 0 <= i < |ring| && b == ring[i] && bufs[..] == old(bufs[..])
        invariant forall j :: i < j < |ring| ==> ring[j] < NBUF && bufs[ring[j]].refcnt > 0
        decreases i
      {
        RingAt(HEAD, next[..], prev[..], ring, i);
        if bufs[b].refcnt == 0 {
          LastIsLru(bufs[..], ring, dropped, i);
          GivenUnique(bufs[..], b, Buf(false, dev, blockno, 1, bufs[b].data));
          bufs[b] := Buf(false, dev, blockno, 1, bufs[b].data);
          return Some(b);
        }
        RingAt(HEAD, next[..], prev[..], ring, i - 1);
        b := prev[b];
        i := i - 1;
      }
      RingAt(HEAD, next[..], prev[..], ring, i);
      forall b | 0 <= b < NBUF ensures bufs[b].refcnt > 0 { InRing(ring, b); }
      return None;
    }

    /** bget: a reference to the buffer for the block. */
    method Bget(dev: nat, blockno: nat) returns (r: Option<nat>)
      requires Valid()
      modifies bufs
      ensures Valid() && Got(old(bufs[..]), bufs[..], dropped, dev, blockno, r)
    {
      hide IsRing, ByLastDrop, Unique, LeastRecentlyUsed;
      ghost var was := bufs[..];
      r := Find(dev, blockno);
      if r.None? {
        forall c | 0 <= c < NBUF ensures !Caches(was[c], dev, blockno) { assert !Caches(bufs[c], dev, blockno); }
        assert bufs[..] == was;
        r := Recycle(dev, blockno);
        if r.None? { forall c | 0 <= c < NBUF ensures was[c].refcnt > 0 { assert bufs[c].refcnt > 0; } }
      }
    }

    /** The rest of bread, under the buffer's sleep lock; onDisk is the block's contents there. */
    method Fill(b: nat, onDisk: L.Block) returns (data: L.Block)
      requires Valid() && b < NBUF
      modifies bufs
      ensures Valid() && data == if old(bufs[..])[b].valid then old(bufs[..])[b].data else onDisk
      ensures bufs[..] == old(bufs[..])[b := old(bufs[..])[b].(valid := true, data := data)]
    {
      hide IsRing, ByLastDrop, Unique;
      SameKeysUnique(bufs[..], bufs[..][b := bufs[b].(valid := true, data := onDisk)]);
      if !bufs[b].valid {
        bufs[b] := bufs[b].(valid := true, data := onDisk);
      }
      data := bufs[b].data;
    }

    /** brelse, after the sleep lock. The caller's reference goes; an unused buffer becomes the most recent. */
    method Brelse(b: nat)
      requires Valid() && b < NBUF && bufs[b].refcnt > 0
      modifies this, bufs, next, prev
      ensures Valid()
      ensures bufs[..] == old(bufs[..])[b := old(bufs[..])[b].(refcnt := old(bufs[..])[b].refcnt - 1)]
      ensures bufs[b].refcnt > 0 ==> next[..] == old(next[..]) && prev[..] == old(prev[..]) && dropped == old(dropped)
      ensures bufs[b].refcnt == 0 ==>
                && next[HEAD] == b && dropped == old(dropped)[b := old(now)]
                && forall c :: 0 <= c < NBUF && c != b ==> dropped[c] < dropped[b]
    {
      hide IsRing, ByLastDrop, Unique, InsertFirst, Remove;
      SameKeysUnique(bufs[..], bufs[..][b := bufs[b].(refcnt := bufs[b].refcnt - 1)]);
      bufs[b] := bufs[b].(refcnt := bufs[b].refcnt - 1);
      if bufs[b].refcnt == 0 {
        RingFacts(HEAD, next[..], prev[..], ring);
        ghost var k := Index(ring, b);
        Unlinked(HEAD, next[..], prev[..], ring, k);
        ghost var nx: seq<nat>, pv: seq<nat> := next[..], prev[..];
        prev[next[b]] := prev[b];
        next[prev[b]] := next[b];
        MovedKeeps(ring, k, dropped, now);
        ghost var rest := Remove(ring, k);
        RestRing(nx, pv, next[..], prev[..], ring, k);
        LinkFirst(next, prev, rest, b);
        FirstIs(next[..], prev[..], rest, b);
        ring, dropped, now := InsertFirst(rest, b), dropped[b := now], now + 1;
      }
    }

    method Bpin(b: nat)
      requires Valid() && b < NBUF
      modifies bufs
      ensures Valid() && bufs[..] == old(bufs[..])[b := old(bufs[..])[b].(refcnt := old(bufs[..])[b].refcnt + 1)]
    {
      hide IsRing, ByLastDrop, Unique;
      SameKeysUnique(bufs[..], bufs[..][b := bufs[b].(refcnt := bufs[b].refcnt + 1)]);
      bufs[b] := bufs[b].(refcnt := bufs[b].refcnt + 1);
    }

    /**
    bunpin. It moves nothing, not even when it drops the last reference; had that drop counted as the
    latest, the list would still be in order just when the buffer is first on it already.
    */
    method Bunpin(b: nat)
      requires Valid() && b < NBUF && bufs[b].refcnt > 0
      modifies bufs
      ensures ByLastDrop(ring, dropped[b := now]) <==> next[HEAD] == b
      ensures Valid() && bufs[..] == old(bufs[..])[b := old(bufs[..])[b].(refcnt := old(bufs[..])[b].refcnt - 1)]
    {
      hide IsRing, ByLastDrop, Unique, Distinct;
      SameKeysUnique(bufs[..], bufs[..][b := bufs[b].(refcnt := bufs[b].refcnt - 1)]);
      RingFacts(HEAD, next[..], prev[..], ring);
      SecondIs(next[..], prev[..], ring);
      DropOrder(ring, dropped, b, now);
      bufs[b] := bufs[b].(refcnt := bufs[b].refcnt - 1);
    }
  }
}
