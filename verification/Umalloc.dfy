/**
malloc, free and morecore of user/umalloc.c over the headers in memory. Addresses count units of
one Header (16 bytes); the memory above the program is what sbrk has returned so far.
*/
module Umalloc {
  import opened Wrappers
  import opened HeapList
  import opened HeapOps

  const HEADER: nat := 16           // sizeof(Header)
  const LIMIT: nat := 0x80_0000     // units in all of physical memory: sbrk cannot succeed beyond
  const MORECORE: nat := 4096

  /** A uint or uint64 passed where sbrk takes an int. */
  function ToInt(n: nat): int {
    var w := n % 0x1_0000_0000;
    if w < 0x8000_0000 then w else w - 0x1_0000_0000
  }

  /** The units malloc needs for nbytes, and one for the header; computed in 64 bits. */
  function Units(nbytes: nat): nat {
    (nbytes + HEADER - 1) / HEADER + 1
  }

  /** sbrk's argument is the number of bytes morecore records just when it is below 2^31. */
  lemma SbrkIsExact(nu: nat)
    requires nu <= 0x1000_0001
    ensures ToInt(nu * HEADER) == nu * HEADER <==> nu < 0x800_0000
  {
  }

  /** The units morecore asks for. */
  function Asked(units: nat): nat {
    if units < MORECORE then MORECORE else units
  }

  /** sbrk's answer to morecore, when the program has len units; a negative argument is never refused. */
  predicate Grants(len: nat, units: nat, granted: bool) {
    var n := ToInt(Asked(units) * HEADER);
    n > 0 ==> granted && len + n / HEADER <= LIMIT
  }

  /** The request whose size does not fit in sbrk's argument, on a heap of any size. */
  predicate Overruns(len: nat, nbytes: nat, granted: bool) {
    nbytes > 0x7FFF_FFE0 && Grants(len, Units(nbytes), granted)
  }

  /**
  From 2^31 - 31 to 2^32 - 16 bytes, sbrk is asked for a negative number of bytes or none: it takes memory
  away, however much there is. Beyond that it is asked for 16 bytes.
  */
  lemma OverrunsWhen(len: nat, nbytes: nat, granted: bool)
    requires 0x7FFF_FFE0 < nbytes < 0x1_0000_0000
    ensures nbytes <= 0xFFFF_FFF0 ==> ToInt(Asked(Units(nbytes)) * HEADER) <= 0 && Overruns(len, nbytes, granted)
    ensures nbytes > 0xFFFF_FFF0 ==> (Overruns(len, nbytes, granted) <==> granted && len < LIMIT)
  {
    UnitsFit(nbytes);
    if nbytes <= 0xFFFF_FFE0 {
      assert 0x800_0000 <= Units(nbytes) < 0x1000_0000;
    } else if nbytes <= 0xFFFF_FFF0 {
      assert Units(nbytes) == 0x1000_0000;
    } else {
      assert Units(nbytes) == 0x1000_0001;
    }
  }

  lemma UnitsFit(nbytes: nat)
    requires nbytes < 0x1_0000_0000
    ensures 0 < Units(nbytes) <= 0x1000_0001 && nbytes <= (Units(nbytes) - 1) * HEADER < nbytes + HEADER
    ensures Units(nbytes) < 0x800_0000 <==> nbytes <= 0x7FFF_FFE0
  {
  }

  datatype Answer =
    | Got(p: nat)  // the address just above the block's header
    | NoMemory     // 0
    | Overrun      // sbrk was asked for fewer bytes than the header will claim: not modelled further

  /** Where bp belongs among the free blocks. */
  lemma {:induction false} Place(m: Heap, bp: nat, k: nat) returns (i: nat)
    requires Good(m) && IsLive(m, bp) && k < |m.list| && m.list[k] < bp
    ensures Belongs(m, i, bp)
    decreases |m.list| - k
  {
    i := k;
    if k + 1 < |m.list| && m.list[k + 1] <= bp {
      NotListed(m, bp, k + 1);
      i := Place(m, bp, k + 1);
    }
  }

  lemma NotListed(m: Heap, bp: nat, k: nat)
    requires Good(m) && IsLive(m, bp) && k < |m.list|
    ensures m.list[k] != bp && !m.owner[m.list[k]].Live?
  {
    hide Cyclic, Known, Ordered;
    assert m.list[0] == BASE && m.owner[BASE].Nobody?;
    if k > 0 { assert Spans(m, m.list[k], Free(m.list[k])); assert m.owner[m.list[k]] == Free(m.list[k]); }
  }

  /** Linking bp in, and joining it to the next block if they touch. */
  lemma JoinedNext(m: Heap, i: nat, bp: nat)
    requires Good(m) && Belongs(m, i, bp) && IsLive(m, bp) && Shape(m)
    ensures bp < |m.ptr| && After(m.list, i) < |m.size|
    ensures
      var a := Link(m, i, bp);
      var p, next := m.list[i], After(m.list, i);
      var joinNext := bp + m.size[bp] == next;
      && Good(a) && Shape(a) && i + 1 < |a.list|
      && var b := JoinIf(a, i + 1);
      && Shape(b) && i + 1 < |b.list| && b.list[i] == p && b.list[i + 1] == bp
      && b.ptr == m.ptr[bp := if joinNext then m.ptr[next] else next][p := bp]
      && b.size == if joinNext then m.size[bp := m.size[bp] + m.size[next]] else m.size
  {
    hide Good, Cyclic, Known, FreeSpans, LiveSpans, Relabel, Nonempty, JoinIf;
    GoodShape(m);
    InRange(m, i, bp);
    LinkFacts(m, i, bp);
    NotFree(m, bp);
    NotListed(m, bp, i);
    LinkGood(m, i, bp);
    var a := Link(m, i, bp);
    JoinIfShape(a, i + 1);
    if i + 1 < |m.list| {
      NotListed(m, bp, i + 1);
      JoinNext(m, a, i, bp);
    } else {
      JoinNone(a, i + 1);
    }
  }

  lemma JoinNone(a: Heap, j: nat)
    requires Shape(a) && j + 1 == |a.list|
    ensures JoinIf(a, j) == a
  {
  }

  lemma JoinNext(m: Heap, a: Heap, i: nat, bp: nat)
    requires Shape(m) && i + 1 < |m.list| && bp < |m.ptr| && m.list[i + 1] != bp && m.list[i] != m.list[i + 1]
    requires Shape(a) && Ordered(a.list) && |a.list| == |m.list| + 1 && a.list[i] == m.list[i] && a.list[i + 1] == bp
    requires a.list[i + 2] == m.list[i + 1] && a.size == m.size && m.list[i] != bp
    requires a.ptr == m.ptr[bp := m.list[i + 1]][m.list[i] := bp]
    ensures
      var b := JoinIf(a, i + 1);
      var p, next := m.list[i], m.list[i + 1];
      var joinNext := bp + m.size[bp] == next;
      && i + 1 < |b.list| && b.list[i] == p && b.list[i + 1] == bp
      && b.ptr == m.ptr[bp := if joinNext then m.ptr[next] else next][p := bp]
      && b.size == if joinNext then m.size[bp := m.size[bp] + m.size[next]] else m.size
  {
    hide Relabel;
    if TouchesNext(a, i + 1) {
      JoinFacts(a, i + 1);
      var p, next := m.list[i], m.list[i + 1];
      assert m.ptr[bp := next][p := bp][bp := m.ptr[next]] == m.ptr[bp := m.ptr[next]][p := bp];
    }
  }

  /** Joining it to the block before. */
  lemma JoinedPrev(b: Heap, i: nat, p: nat, bp: nat, ptr1: seq<nat>)
    requires Shape(b) && i + 1 < |b.list| && b.list[i] == p && b.list[i + 1] == bp && p != bp
    requires |ptr1| == |b.ptr| && b.ptr == ptr1[p := bp]
    ensures
      var joinPrev := p + b.size[p] == bp;
      && JoinIf(b, i).ptr == (if joinPrev then ptr1[p := ptr1[bp]] else ptr1[p := bp])
      && JoinIf(b, i).size == if joinPrev then b.size[p := b.size[p] + b.size[bp]] else b.size
  {
    hide Relabel;
    assert ptr1[p := bp][p := ptr1[bp]] == ptr1[p := ptr1[bp]];
  }

  /** The headers that free's assignments leave behind. */
  lemma FreedIs(m: Heap, i: nat, bp: nat)
    requires Good(m) && Belongs(m, i, bp) && IsLive(m, bp) && Shape(m)
    ensures bp < |m.ptr| && After(m.list, i) < |m.size|
    ensures
      var p, next := m.list[i], After(m.list, i);
      var joinNext := bp + m.size[bp] == next;
      var ptr1 := m.ptr[bp := if joinNext then m.ptr[next] else next];
      var size1 := if joinNext then m.size[bp := m.size[bp] + m.size[next]] else m.size;
      var joinPrev := p + size1[p] == bp;
      && Freed(m, i, bp).ptr == (if joinPrev then ptr1[p := ptr1[bp]] else ptr1[p := bp])
      && Freed(m, i, bp).size == if joinPrev then size1[p := size1[p] + size1[bp]] else size1
  {
    hide Good, Link, JoinIf;
    JoinedNext(m, i, bp);
    var next := After(m.list, i);
    var ptr1 := m.ptr[bp := if bp + m.size[bp] == next then m.ptr[next] else next];
    JoinedPrev(JoinIf(Link(m, i, bp), i + 1), i, m.list[i], bp, ptr1);
  }

  /** The block before stays on the list. */
  lemma Listed(m: Heap, i: nat, bp: nat)
    requires Good(m) && Belongs(m, i, bp) && IsLive(m, bp)
    ensures i < |m.list| && m.list[i] in Freed(m, i, bp).list
  {
    hide Good, Shape, Link, Relabel, IsLive;
    GoodShape(m);
    JoinedNext(m, i, bp);
    var b := JoinIf(Link(m, i, bp), i + 1);
    assert b.list[..i + 1][i] == m.list[i];
    assert JoinIf(b, i).list[i] == m.list[i];
  }

  /** free returns the block's units to the free ones, and moves no other unit. */
  lemma FreedOwners(m: Heap, i: nat, bp: nat)
    requires Good(m) && Belongs(m, i, bp) && IsLive(m, bp) && Shape(m)
    ensures Returned(m.owner, Freed(m, i, bp).owner, bp) && |Freed(m, i, bp).owner| == |m.owner|
  {
    hide Cyclic, Known, FreeSpans, LiveSpans, Nonempty, Ordered;
    LinkGood(m, i, bp);
    JoinIfShape(Link(m, i, bp), i + 1);
  }

  // ---- what a caller of malloc and free sees ----

  /** Every block but the one at bp, allocated or released now, is where it was with its memory untouched. */
  ghost predicate LiveKept(was: Heap, now: Heap, bp: nat) {
    && |was.ptr| == |was.size| == |was.owner| <= |now.owner| && |now.ptr| == |now.size| == |now.owner|
    && (forall u :: 0 <= u < |was.owner| && was.owner[u].Live? && was.owner[u] != Live(bp) ==>
          now.owner[u] == was.owner[u] && now.ptr[u] == was.ptr[u] && now.size[u] == was.size[u])
  }

  lemma FreedKeeps(m: Heap, i: nat, bp: nat)
    requires Good(m) && Belongs(m, i, bp) && IsLive(m, bp) && Shape(m)
    ensures LiveKept(m, Freed(m, i, bp), bp)
  {
    hide Good, Shape, Freed, Belongs;
    FreedOwners(m, i, bp);
    FreedIs(m, i, bp);
    GoodShape(m);
    InRange(m, i, bp);
    Bounds(m, i);
    NotListed(m, bp, i);
  }

  /** now is was after morecore: more memory, all of it free, and every block where it was. */
  ghost predicate Grown(was: Heap, now: Heap) {
    && |was.ptr| == |was.size| == |was.owner| <= |now.owner| && |now.ptr| == |now.size| == |now.owner|
    && (forall u :: |was.owner| <= u < |now.owner| ==> now.owner[u].Free?)
    && (forall u :: 0 <= u < |was.owner| ==> Unmoved(was, now, u))
  }

  predicate Unmoved(was: Heap, now: Heap, u: nat)
    requires u < |was.owner| && u < |now.owner| && |was.ptr| == |was.size| == |was.owner|
    requires |now.ptr| == |now.size| == |now.owner|
  {
    if was.owner[u].Free? then now.owner[u].Free?
    else now.owner[u] == was.owner[u] && (was.owner[u].Live? ==> now.ptr[u] == was.ptr[u] && now.size[u] == was.size[u])
  }

  /** now is was with a new block of n units, header at h, taken from free memory or from what morecore added. */
  ghost predicate Allocated(was: Heap, now: Heap, h: nat, n: nat) {
    && |was.ptr| == |was.size| == |was.owner| <= |now.owner| && |now.ptr| == |now.size| == |now.owner|
    && n > 0 && h + n <= |now.owner| && now.size[h] == n
    && (forall u :: h <= u < h + n ==> now.owner[u] == Live(h) && (u < |was.owner| ==> was.owner[u].Free?))
    && (forall u :: |was.owner| <= u < |now.owner| && !(h <= u < h + n) ==> now.owner[u].Free?)
    && (forall u :: 0 <= u < |was.owner| && !(h <= u < h + n) ==> Unmoved(was, now, u))
  }

  lemma TakenAllocated(was: Heap, m: Heap, i: nat)
    requires Good(m) && Shape(m) && Grown(was, m) && 1 <= i < |m.list|
    ensures Allocated(was, Taken(m, i), m.list[i], m.size[m.list[i]])
  {
    hide Cyclic, Known, LiveSpans, Ordered, Without;
    var h, r := m.list[i], Taken(m, i);
    assert Spans(m, h, Free(h));
    var q := m.list[i - 1];
    if i > 1 { assert Spans(m, q, Free(q)); assert m.owner[q] == Free(q); }
    forall u | 0 <= u < |was.owner| && !(h <= u < h + m.size[h]) ensures Unmoved(was, r, u) {
      assert Unmoved(was, m, u);
    }
    forall u | h <= u < h + m.size[h] ensures r.owner[u] == Live(h) && (u < |was.owner| ==> was.owner[u].Free?) {
      assert m.owner[u] == Free(h);
      if u < |was.owner| { assert Unmoved(was, m, u); }
    }
  }

  lemma CarvedAllocated(was: Heap, m: Heap, h: nat, n: nat)
    requires Shape(m) && Grown(was, m) && Spans(m, h, Free(h)) && 0 < n < m.size[h]
    ensures Allocated(was, Carved(m, h, n), h + m.size[h] - n, n)
  {
    var r := Carved(m, h, n);
    var c := h + m.size[h] - n;
    assert m.owner[h] == Free(h);
    forall u | 0 <= u < |was.owner| && !(c <= u < c + n) ensures Unmoved(was, r, u) { assert Unmoved(was, m, u); }
    forall u | c <= u < c + n ensures r.owner[u] == Live(c) && (u < |was.owner| ==> was.owner[u].Free?) {
      assert m.owner[u] == Free(h);
      if u < |was.owner| { assert Unmoved(was, m, u); }
    }
  }

  lemma GrownOn(was: Heap, mid: Heap, now: Heap)
    requires Grown(was, mid) && Grown(mid, now)
    ensures Grown(was, now)
  {
    forall u | 0 <= u < |was.owner| ensures Unmoved(was, now, u) {
      assert Unmoved(was, mid, u) && Unmoved(mid, now, u);
    }
    forall u | |was.owner| <= u < |now.owner| ensures now.owner[u].Free? {
      if u < |mid.owner| { assert Unmoved(mid, now, u); }
    }
  }

  /** No block outgrows memory, so sizes fit in a uint. */
  lemma SizeFits(m: Heap, k: nat)
    requires Good(m) && k < |m.list|
    ensures m.list[k] < |m.size| && m.size[m.list[k]] <= |m.owner|
  {
    if k > 0 { assert Spans(m, m.list[k], Free(m.list[k])); }
  }

  lemma GrownSame(m: Heap)
    requires Shape(m)
    ensures Grown(m, m)
  {
  }

  /** morecore's new block, once freed, lies in one free block at least as large. */
  lemma BigEnough(m: Heap, hp: nat, nu: nat) returns (j: nat)
    requires Good(m) && Shape(m) && nu > 0 && hp + nu <= |m.owner|
    requires m.owner[hp].Free? && forall u :: hp <= u < hp + nu ==> m.owner[u] == m.owner[hp]
    ensures 1 <= j < |m.list| && m.size[m.list[j]] >= nu && forall n: nat :: n <= nu ==> Fits(m, n)
  {
    hide Good;
    j := BlockOf(m, hp);
    assert m.owner[hp + nu - 1] == Free(m.list[j]);
  }

  lemma MoreIsGrown(was: Heap, mid: Heap, now: Heap, nu: nat)
    requires |was.ptr| == |was.size| == |was.owner| && nu > 0 && mid == Extended(was, nu) && Good(was) && Shape(was)
    requires |now.ptr| == |now.size| == |now.owner| == |mid.owner| && LiveKept(mid, now, |was.owner|)
    requires Returned(mid.owner, now.owner, |was.owner|)
    ensures Grown(was, now)
  {
    forall u | 0 <= u < |was.owner| ensures Unmoved(was, now, u) {
      assert KnownAt(was, u);
      assert mid.owner[u] == was.owner[u] && mid.ptr[u] == was.ptr[u] && mid.size[u] == was.size[u];
    }
  }

  lemma ExtendedFacts(m: Heap, n: nat)
    requires n > 0 && |m.ptr| == |m.size| == |m.owner|
    ensures var r := Extended(m, n);
      && |r.ptr| == |r.size| == |r.owner| == |m.owner| + n && r.list == m.list
      && forall u :: |m.owner| <= u < |m.owner| + n ==> r.owner[u] == Live(|m.owner|)
  {
  }

  lemma ExtendedIs(m: Heap, n: nat, r: Heap)
    requires n > 0 && r.list == m.list && r.ptr == m.ptr + seq(n, _ => 0) && r.size == m.size + [n] + seq(n - 1, _ => 0)
    requires r.owner == m.owner + seq(n, _ => Live(|m.owner|))
    ensures r == Extended(m, n)
  {
  }

  lemma Index(m: Heap, h: nat) returns (i: nat)
    requires h in m.list
    ensures i < |m.list| && m.list[i] == h
  {
    i :| 0 <= i < |m.list| && m.list[i] == h;
  }

  /** Some free block has n units or more. */
  ghost predicate Fits(m: Heap, n: nat)
    requires Shape(m)
  {
    exists j :: 0 <= j < |m.list| && m.size[m.list[j]] >= n
  }

  lemma FitsAt(m: Heap, k: nat, n: nat)
    requires Good(m) && k < |m.list| && m.list[k] < |m.size| && m.size[m.list[k]] >= n
    ensures Shape(m) && Fits(m, n)
  {
  }

  lemma OnlyBase(m: Heap, n: nat)
    requires Good(m) && m.list == [BASE] && n > 0
    ensures Shape(m) && !Fits(m, n)
  {
  }

  /** The free blocks after the f-th, up to the i-th around the cycle, are too small. */
  ghost predicate SmallBetween(m: Heap, f: nat, i: nat, n: nat)
    requires Shape(m)
  {
    forall j: nat :: j < |m.list| && (if f <= i then f < j <= i else j > f || j <= i) ==> m.size[m.list[j]] < n
  }

  lemma NoneBetween(m: Heap, f: nat, n: nat)
    requires Shape(m)
    ensures SmallBetween(m, f, f, n)
  {
  }

  lemma SmallMore(m: Heap, f: nat, i: nat, n: nat)
    requires Shape(m) && SmallBetween(m, f, i, n) && f < |m.list| && i < |m.list|
    requires var k := if i + 1 < |m.list| then i + 1 else 0; k != f && m.size[m.list[k]] < n
    ensures SmallBetween(m, f, if i + 1 < |m.list| then i + 1 else 0, n)
  {
  }

  /** The search has come back to where it began. */
  lemma AllSmall(m: Heap, f: nat, i: nat, n: nat)
    requires Shape(m) && Ordered(m.list) && SmallBetween(m, f, i, n) && f < |m.list| && i < |m.list|
    requires m.list[f] == After(m.list, i) && m.size[m.list[f]] < n
    ensures !Fits(m, n)
  {
    var k := if i + 1 < |m.list| then i + 1 else 0;
    assert f == k;
  }

  lemma BaseIsEmpty(m: Heap)
    requires Good(m)
    ensures |m.list| > 0 && m.list[0] < |m.size| && m.size[m.list[0]] == 0
  {
  }

  lemma FreeAt(m: Heap, k: nat)
    requires Good(m) && 1 <= k < |m.list|
    ensures Spans(m, m.list[k], Free(m.list[k]))
  {
  }

  /** malloc leaves freep on the list. */
  lemma PrevStays(m: Heap, k: nat)
    requires Shape(m) && Ordered(m.list) && 1 <= k < |m.list|
    ensures m.list[k - 1] in Without(m.list, k)
  {
    WithoutOrdered(m.list, k);
  }

  // ---- runs ----

  /** Memory as malloc and free see it, and the pointers the program has obtained and not released. */
  datatype Space = Space(m: Heap, freep: Option<nat>, held: set<nat>)

  datatype Call =
    | Obtain(nbytes: nat, granted: bool)            // malloc; granted: whether the kernel finds memory
    | Release(p: nat)                               // free
    | Fill(p: nat, offset: nat, x: nat, y: nat)     // the program writes into a block
    | Break(n: nat, granted: bool)                  // the program calls sbrk itself

  /** Before the first malloc nothing is owned; from then on the list is one fully coalesced cycle. */
  ghost predicate Sound(m: Heap, freep: Option<nat>) {
    && |m.ptr| == |m.size| == |m.owner| && BASE < |m.ptr| <= LIMIT
    && (freep.None? ==> forall u :: 0 <= u < |m.owner| ==> m.owner[u].Nobody?)
    && (freep.Some? ==> Good(m) && Shape(m) && Coalesced(m) && freep.value in m.list)
  }

  ghost predicate Fine(s: Space) {
    Sound(s.m, s.freep) && forall p <- s.held :: p > 0 && IsLive(s.m, p - 1)
  }

  /** What the program may do: it releases and fills only what it holds, and not past the end. */
  predicate Legal(s: Space, call: Call) {
    match call
    case Obtain(nbytes, _) => nbytes < 0x1_0000_0000
    case Release(p) => p > 0 && p in s.held
    case Fill(p, offset, _, _) =>
      p > 0 && p in s.held && p + offset < |s.m.ptr| && p + offset < |s.m.size| && offset + 1 < s.m.size[p - 1]
    case Break(_, _) => true
  }

  predicate Stops(s: Space, call: Call) {
    !Legal(s, call) || (call.Obtain? && Overruns(|s.m.ptr|, call.nbytes, call.granted))
  }

  /** One call, with its outcome. */
  ghost predicate Step(was: Space, call: Call, now: Space) {
    && !Stops(was, call)
    && match call
       case Obtain(nbytes, granted) =>
         if HasRoom(was.m, was.freep, Units(nbytes)) || Grants(|was.m.owner|, Units(nbytes), granted)
         then Obtained(was, now, Units(nbytes))
         else Grown(was.m, now.m) && now.m.owner == was.m.owner && now.held == was.held
       case Release(p) =>
         LiveKept(was.m, now.m, p - 1) && Returned(was.m.owner, now.m.owner, p - 1) && now.held == was.held - {p}
       case Fill(p, offset, x, y) =>
         now == was.(m := was.m.(ptr := was.m.ptr[p + offset := x], size := was.m.size[p + offset := y]))
       case Break(n, granted) =>
         now == if granted && |was.m.owner| + n <= LIMIT then was.(m := Skipped(was.m, n)) else was
  }

  /** A new block of n units, none of which was in use. */
  ghost predicate Obtained(was: Space, now: Space, n: nat) {
    exists h: nat :: h + 1 !in was.held && now.held == was.held + {h + 1} && Allocated(was.m, now.m, h, n)
  }

  /** The units of the block at bp are free, in one block; no other unit changes hands. */
  ghost predicate Returned(was: seq<Owner>, now: seq<Owner>, bp: nat) {
    && |now| == |was|
    && (forall u :: 0 <= u < |now| ==> (now[u].Free? <==> was[u].Free? || was[u] == Live(bp)))
    && (forall u :: 0 <= u < |now| && !was[u].Free? && was[u] != Live(bp) ==> now[u] == was[u])
    && (forall u :: 0 <= u < |now| && was[u] == Live(bp) ==> bp < |now| && now[u] == now[bp])
  }

  /** Some free block has n units or more. */
  ghost predicate HasRoom(m: Heap, freep: Option<nat>, n: nat) {
    freep.Some? && Shape(m) && Fits(m, n)
  }

  ghost predicate Runs(run: seq<Space>, calls: seq<Call>) {
    && |run| == |calls| + 1
    && (forall k :: 0 <= k < |run| ==> Fine(run[k]))
    && forall k :: 0 <= k < |calls| ==> Step(run[k], calls[k], run[k + 1])
  }

  /** The block with header h is there, with everything in it as it was. */
  ghost predicate BlockKept(was: Heap, now: Heap, h: nat) {
    && |was.ptr| == |was.size| == |was.owner| <= |now.owner| && |now.ptr| == |now.size| == |now.owner|
    && forall u :: 0 <= u < |was.owner| && was.owner[u] == Live(h) ==>
         now.owner[u] == Live(h) && now.ptr[u] == was.ptr[u] && now.size[u] == was.size[u]
  }

  lemma StepKeeps(was: Space, call: Call, now: Space, p: nat)
    requires Fine(was) && Fine(now) && Step(was, call, now) && p in was.held
    requires call != Release(p) && (call.Fill? ==> call.p != p)
    ensures p > 0 && p in now.held && BlockKept(was.m, now.m, p - 1)
  {
    hide Good, Shape, Coalesced, Grants, Units, Fits;
    match call {
      case Obtain(nbytes, granted) =>
        if HasRoom(was.m, was.freep, Units(nbytes)) || Grants(|was.m.owner|, Units(nbytes), granted) {
          var h: nat :| h + 1 !in was.held && now.held == was.held + {h + 1} &&
              Allocated(was.m, now.m, h, Units(nbytes));
          AllocatedBlock(was.m, now.m, h, Units(nbytes), p - 1);
        } else {
          GrownBlock(was.m, now.m, p - 1);
        }
      case Release(q) =>
      case Fill(q, offset, _, _) =>
        FillElsewhere(was, q, offset, p);
      case Break(n, granted) =>
    }
  }

  lemma AllocatedBlock(was: Heap, now: Heap, h: nat, n: nat, b: nat)
    requires Allocated(was, now, h, n)
    ensures BlockKept(was, now, b)
  {
    forall u | 0 <= u < |was.owner| && was.owner[u] == Live(b)
      ensures now.owner[u] == Live(b) && now.ptr[u] == was.ptr[u] && now.size[u] == was.size[u]
    {
      assert Unmoved(was, now, u);
    }
  }

  lemma GrownBlock(was: Heap, now: Heap, b: nat)
    requires Grown(was, now)
    ensures BlockKept(was, now, b)
  {
    forall u | 0 <= u < |was.owner| && was.owner[u] == Live(b)
      ensures now.owner[u] == Live(b) && now.ptr[u] == was.ptr[u] && now.size[u] == was.size[u]
    {
      assert Unmoved(was, now, u);
    }
  }

  lemma FillElsewhere(s: Space, q: nat, offset: nat, p: nat)
    requires Fine(s) && q in s.held && p in s.held && q != p && 0 < q <= |s.m.size| && offset + 1 < s.m.size[q - 1]
    ensures q + offset < |s.m.owner| && s.m.owner[q + offset] == Live(q - 1)
  {
    hide Good, Shape, Coalesced;
    if s.freep.Some? { LiveBlock(s.m, q - 1, q + offset); }
  }

  /**
  As long as the program does not release or fill a block itself, no sequence of calls changes anything in
  it: malloc and free never write into memory that is in use, nor give it out a second time.
  */
  lemma {:induction false} Untouched(run: seq<Space>, calls: seq<Call>, p: nat)
    requires Runs(run, calls) && p in run[0].held
    requires forall c <- calls :: c != Release(p) && (c.Fill? ==> c.p != p)
    ensures p > 0 && p in run[|calls|].held && BlockKept(run[0].m, run[|calls|].m, p - 1)
    decreases |calls|
  {
    hide Fine, Step;
    if calls == [] {
      KeptSame(run[0], p);
    } else {
      var last := |calls| - 1;
      assert forall c <- calls[..last] :: c in calls;
      Untouched(run[..|calls|], calls[..last], p);
      assert calls[last] in calls;
      StepKeeps(run[last], calls[last], run[last + 1], p);
      KeptOn(run[0].m, run[last].m, run[last + 1].m, p - 1);
    }
  }

  lemma KeptSame(s: Space, p: nat)
    requires Fine(s) && p in s.held
    ensures p > 0 && BlockKept(s.m, s.m, p - 1)
  {
  }

  lemma KeptOn(a: Heap, b: Heap, c: Heap, h: nat)
    requires BlockKept(a, b, h) && BlockKept(b, c, h)
    ensures BlockKept(a, c, h)
  {
  }

  /** Blocks the program holds do not overlap. */
  lemma HeldApart(s: Space, p: nat, q: nat)
    requires Fine(s) && p in s.held && q in s.held && p < q
    ensures s.freep.Some? && p - 1 + s.m.size[p - 1] <= q - 1 && q - 1 + s.m.size[q - 1] <= |s.m.owner|
  {
    hide Shape, Coalesced;
    assert IsLive(s.m, p - 1) && IsLive(s.m, q - 1);
    assert Spans(s.m, p - 1, Live(p - 1)) && Spans(s.m, q - 1, Live(q - 1));
  }

  /** Units that belong to a block go on belonging to one. */
  predicate OwnedKept(was: seq<Owner>, now: seq<Owner>) {
    |was| <= |now| && forall u :: 0 <= u < |was| && !was[u].Nobody? ==> !now[u].Nobody?
  }

  lemma OwnedSame(o: seq<Owner>)
    ensures OwnedKept(o, o)
  {
  }

  lemma OwnedOn(a: seq<Owner>, b: seq<Owner>, c: seq<Owner>)
    requires OwnedKept(a, b) && OwnedKept(b, c)
    ensures OwnedKept(a, c)
  {
  }

  lemma AllocatedKeeps(was: Heap, now: Heap, h: nat, n: nat)
    requires Allocated(was, now, h, n)
    ensures OwnedKept(was.owner, now.owner) && IsLive(now, h)
    ensures forall q :: IsLive(was, q) ==> IsLive(now, q)
  {
    forall u | 0 <= u < |was.owner| && !was.owner[u].Nobody? ensures !now.owner[u].Nobody? {
      if !(h <= u < h + n) { assert Unmoved(was, now, u); }
    }
    forall q | IsLive(was, q) ensures IsLive(now, q) { assert Unmoved(was, now, q); }
  }

  lemma NewBlock(was: Heap, now: Heap, h: nat, n: nat)
    requires Allocated(was, now, h, n)
    ensures !IsLive(was, h)
  {
    assert now.owner[h] == Live(h);
  }

  lemma GrownKeeps(was: Heap, now: Heap)
    requires Grown(was, now)
    ensures OwnedKept(was.owner, now.owner)
    ensures forall q :: IsLive(was, q) ==> IsLive(now, q)
  {
    forall u | 0 <= u < |was.owner| ensures !was.owner[u].Nobody? ==> !now.owner[u].Nobody? {
      assert Unmoved(was, now, u);
    }
    forall q | IsLive(was, q) ensures IsLive(now, q) { assert Unmoved(was, now, q); }
  }

  lemma FreeKeeps(was: Heap, now: Heap, bp: nat)
    requires LiveKept(was, now, bp) && Returned(was.owner, now.owner, bp)
    ensures OwnedKept(was.owner, now.owner)
    ensures forall q :: IsLive(was, q) && q != bp ==> IsLive(now, q)
  {
  }

  lemma SameLive(was: Heap, now: Heap)
    requires was.owner == now.owner
    ensures forall q :: IsLive(was, q) ==> IsLive(now, q)
  {
  }

  lemma SkippedKeeps(m: Heap, n: nat)
    ensures OwnedKept(m.owner, Skipped(m, n).owner)
    ensures forall q :: IsLive(m, q) ==> IsLive(Skipped(m, n), q)
  {
  }

  lemma LiveBlock(m: Heap, h: nat, u: nat)
    requires Good(m) && IsLive(m, h) && h < |m.size| && h <= u < h + m.size[h]
    ensures u < |m.owner| && m.owner[u] == Live(h)
  {
    assert Spans(m, h, Live(h));
  }

  /** Writing inside a live block, past its header, does not touch the list. */
  lemma FillGood(m: Heap, u: nat, x: nat, y: nat)
    requires Good(m) && Shape(m) && Coalesced(m) && u < |m.owner| && m.owner[u].Live? && m.owner[u] != Live(u)
    ensures var r := m.(ptr := m.ptr[u := x], size := m.size[u := y]); Good(r) && Shape(r) && Coalesced(r)
  {
    var r := m.(ptr := m.ptr[u := x], size := m.size[u := y]);
    forall k | 0 <= k < |m.list| ensures m.list[k] != u && (k > 0 ==> Spans(r, m.list[k], Free(m.list[k]))) {
      if k > 0 { assert Spans(m, m.list[k], Free(m.list[k])); }
    }
    assert Cyclic(r) by { assert forall k :: 0 <= k < |m.list| ==> m.ptr[m.list[k]] == After(m.list, k); }
    forall h | IsLive(r, h) ensures Spans(r, h, Live(h)) { assert IsLive(m, h) && h != u; assert Spans(m, h, Live(h)); }
    forall v | 0 <= v < |r.owner| ensures KnownAt(r, v) { assert KnownAt(m, v); }
    forall k: nat | k + 1 < |r.list| ensures !TouchesNext(r, k) { assert !TouchesNext(m, k); }
  }

  datatype More = Grew | Refused | Overran

  class UserHeap {
    var ptr: seq<nat>        // s.ptr of the header at each unit
    var size: seq<nat>       // s.size of the header at each unit
    var freep: Option<nat>
    ghost var list: seq<nat>
    ghost var owner: seq<Owner>

    ghost function M(): Heap
      reads this
    {
      Heap(ptr, size, list, owner)
    }

    ghost predicate Valid()
      reads this
    {
      Sound(M(), freep)
    }

    /** A program whose memory, with base in it, ends after the first brk units. */
    constructor (brk: nat)
      requires BASE < brk <= LIMIT
      ensures Valid() && freep.None? && |owner| == brk
    {
      ptr, size := seq(brk, _ => 0), seq(brk, _ => 0);
      freep, list, owner := None, [], seq(brk, _ => Nobody);
    }

    /** free(ap) for an ap that malloc returned and that was not freed since. */
    method Free(ap: nat)
      requires Valid() && 0 < ap && IsLive(M(), ap - 1)
      modifies this
      ensures Valid() && freep.Some? && |owner| == |old(owner)|
      ensures Returned(old(owner), owner, ap - 1)
      ensures LiveKept(old(M()), M(), ap - 1)
    {
      hide Good, Coalesced, Freed, LiveKept, Belongs, Returned;
      var bp := ap - 1;
      var p, i := Search(bp);
      ghost var m := M();
      GoodShape(m);
      FreedCoalesced(m, i, bp);
      FreedOwners(m, i, bp);
      FreedKeeps(m, i, bp);
      Insert(p, bp, i);
      Listed(m, i, bp);
      freep := Some(p);
    }

    /** The rest of free: the headers of bp, of p and of the block after p. */
    method Insert(p: nat, bp: nat, ghost i: nat)
      requires Good(M()) && Belongs(M(), i, bp) && IsLive(M(), bp) && p == list[i]
      modifies this`ptr, this`size, this`list, this`owner
      ensures M() == Freed(old(M()), i, bp)
    {
      hide Good, Shape, Freed, Belongs, IsLive;
      ghost var m := M();
      GoodShape(m);
      FreedIs(m, i, bp);
      InRange(m, i, bp);
      CycleAt(m, i);
      var next := ptr[p];
      if bp + size[bp] == next {
        size := size[bp := size[bp] + size[next]];
        ptr := ptr[bp := ptr[next]];
      } else {
        ptr := ptr[bp := next];
      }
      if p + size[p] == bp {
        size := size[p := size[p] + size[bp]];
        ptr := ptr[p := ptr[bp]];
      } else {
        ptr := ptr[p := bp];
      }
      list, owner := Freed(m, i, bp).list, Freed(m, i, bp).owner;
    }

    /** free's loop: the free block after which bp belongs. */
    method Search(bp: nat) returns (p: nat, ghost i: nat)
      requires Valid() && IsLive(M(), bp)
      ensures freep.Some? && Belongs(M(), i, bp) && p == list[i]
    {
      hide Good, Coalesced, IsLive;
      assert freep.Some? by { LiveMeansStarted(bp); }
      ghost var m := M();
      GoodShape(m);
      NotListed(m, bp, 0);
      ghost var pos := Place(m, bp, 0);
      p := freep.value;
      i :| 0 <= i < |list| && list[i] == p;
      CycleAt(m, i);
      while !(bp > p && bp < ptr[p])
        invariant i < |list| && p == list[i] && p < |ptr| && ptr[p] == After(list, i)
        decreases if i <= pos then pos - i else pos - i + |list|
      {
        if p >= ptr[p] && (bp > p || bp < ptr[p]) { break; }
        p := ptr[p];
        i := if i + 1 < |list| then i + 1 else 0;
        CycleAt(m, i);
      }
    }

    /** granted: whether the kernel finds the memory. */
    method Morecore(units: nat, granted: bool) returns (r: More)
      requires Valid() && freep.Some? && 0 < units <= 0x1000_0001
      modifies this
      ensures Valid() && freep.Some?
      ensures r.Grew? ==> Grown(old(M()), M()) && Fits(M(), units)
      ensures !r.Grew? ==> M() == old(M()) && freep == old(freep)
      ensures r.Grew? <==> Grants(|old(owner)|, units, granted) && units < 0x800_0000
      ensures r.Overran? <==> Grants(|old(owner)|, units, granted) && units >= 0x800_0000
    {
      hide Good, Shape, Coalesced, LiveKept, Extended, Grown;
      var nu := Asked(units);
      var n := ToInt(nu * HEADER);
      SbrkIsExact(nu);
      if n > 0 && (!granted || |ptr| + n / HEADER > LIMIT) { return Refused; }
      if n != nu * HEADER { return Overran; }
      var hp := |ptr|;
      ghost var was := M();
      ExtendedGood(was, nu);
      ExtendedFacts(was, nu);
      ptr := ptr + seq(nu, _ => 0);
      size := size + [nu] + seq(nu - 1, _ => 0);
      owner := owner + seq(nu, _ => Live(hp));
      ExtendedIs(was, nu, M());
      ghost var mid := M();
      Free(hp + 1);
      MoreIsGrown(was, mid, M(), nu);
      ghost var j := BigEnough(M(), hp, nu);
      r := Grew;
    }

    /** base alone on the list: the first call of malloc. */
    method Start()
      requires Valid() && freep.None?
      modifies this
      ensures Valid() && freep == Some(BASE) && list == [BASE] && owner == old(owner) && Grown(old(M()), M())
    {
      ptr := ptr[BASE := BASE];
      freep := Some(BASE);
      size := size[BASE := 0];
      list := [BASE];
      assert M().list == [BASE];
    }

    /** The block p, behind prevp on the list, is large enough: unlink it, or carve its tail off. */
    method Take(prevp: nat, p: nat, nunits: nat, ghost k: nat, ghost was: Heap) returns (h: nat)
      requires Valid() && freep.Some? && 1 <= k < |list| && prevp == list[k - 1] && p == list[k] && p < |size|
      requires 0 < nunits <= size[p] && Grown(was, M())
      modifies this
      ensures Valid() && freep == Some(prevp) && Allocated(was, M(), h, nunits)
    {
      hide Good, Coalesced, Allocated, Grown;
      ghost var m := M();
      FreeAt(m, k);
      CycleAt(m, k - 1);
      GoodShape(m);
      if size[p] == nunits {
        TakenGood(m, k);
        TakenAllocated(was, m, k);
        PrevStays(m, k);
        ptr := ptr[prevp := ptr[p]];
        list, owner := Without(list, k), Taken(m, k).owner;
        h := p;
        assert M() == Taken(m, k);
      } else {
        CarvedGood(m, k, nunits);
        CarvedAllocated(was, m, p, nunits);
        owner := Carved(m, p, nunits).owner;
        size := size[p := size[p] - nunits];
        h := p + size[p];
        size := size[h := nunits];
        assert M() == Carved(m, p, nunits);
      }
      freep := Some(prevp);
    }

    /**
    malloc(nbytes). A block of just the units asked for, taken from free memory alone, if some free block is
    large enough or morecore gets one; 0 if sbrk refuses; and Overrun for the requests OverrunsWhen lists.
    */
    method Malloc(nbytes: nat, granted: bool) returns (a: Answer)
      requires Valid() && nbytes < 0x1_0000_0000
      modifies this
      ensures Valid() && freep.Some?
      ensures a.Got? ==> a.p > 0 && Allocated(old(M()), M(), a.p - 1, Units(nbytes))
      ensures !a.Got? ==> Grown(old(M()), M()) && owner == old(owner) && !Fits(M(), Units(nbytes))
      ensures a.Overrun? <==> Overruns(|old(owner)|, nbytes, granted)
      ensures a.Got? <==>
                HasRoom(old(M()), old(freep), Units(nbytes)) ||
                    (nbytes <= 0x7FFF_FFE0 && Grants(|old(owner)|, Units(nbytes), granted))
    {
      hide Good, Coalesced, Allocated, Grown, SmallBetween, Fits, Shape, Grants, Units;
      ghost var was := M();
      var nunits := Units(nbytes);
      UnitsFit(nbytes);
      ghost var room := HasRoom(was, freep, nunits);
      if freep.None? { Start(); OnlyBase(M(), nunits); } else { GrownSame(was); }
      var prevp := freep.value;
      ghost var f: nat := Index(M(), prevp);
      ghost var i: nat := f;
      ghost var grown := false;
      CycleAt(M(), i);
      var p := ptr[prevp];
      NoneBetween(M(), f, nunits);
      while true
        invariant Valid() && freep.Some? && f < |list| && list[f] == freep.value && Grown(was, M())
        invariant i < |list| && prevp == list[i] && p == After(list, i)
        invariant SmallBetween(M(), f, i, nunits)
        invariant grown ==> Fits(M(), nunits)
        invariant !grown ==> (Fits(M(), nunits) <==> room)
        invariant !grown ==> owner == was.owner && |owner| == |old(owner)|
        invariant grown ==> nunits < 0x800_0000 && Grants(|old(owner)|, nunits, granted)
        decreases if grown then 0 else 1, if i >= f then |list| - (i - f) else f - i
      {
        ghost var k := if i + 1 < |list| then i + 1 else 0;
        CycleAt(M(), i);
        CycleAt(M(), k);
        SizeFits(M(), k);
        if size[p] >= nunits {
          assert k > 0 by { BaseIsEmpty(M()); }
          FitsAt(M(), k, nunits);
          var h := Take(prevp, p, nunits, k, was);
          return Got(h + 1);
        }
        if p == freep.value {
          GoodShape(M());
          AllSmall(M(), f, i, nunits);
          ghost var m := M();
          var more := Morecore(nunits, granted);
          if more.Grew? { GrownOn(was, m, M()); }
          if more.Refused? { return NoMemory; }
          if more.Overran? { return Overrun; }
          p := freep.value;
          f := Index(M(), p);
          i, grown := f, true;
          NoneBetween(M(), f, nunits);
          CycleAt(M(), i);
          prevp := p;
          p := ptr[p];
        } else {
          SmallMore(M(), f, i, nunits);
          i := k;
          prevp := p;
          p := ptr[p];
        }
      }
    }

    /** The program writes anything at all into a block it holds, past the header. */
    method Fill(u: nat, x: nat, y: nat)
      requires Valid() && u < |owner| && owner[u].Live? && owner[u] != Live(u)
      modifies this
      ensures Valid() && list == old(list) && owner == old(owner) && freep == old(freep)
      ensures ptr == old(ptr)[u := x] && size == old(size)[u := y]
    {
      if freep.Some? { FillGood(M(), u, x, y); }
      ptr, size := ptr[u := x], size[u := y];
    }

    /** The program calls sbrk itself; malloc never learns of that memory. */
    method Sbrk(n: nat, granted: bool)
      requires Valid()
      modifies this
      ensures Valid() && freep == old(freep)
      ensures !granted || |old(owner)| + n > LIMIT ==> M() == old(M())
      ensures granted && |old(owner)| + n <= LIMIT ==> M() == Skipped(old(M()), n)
    {
      hide Good, Shape, Coalesced;
      if !granted || |ptr| + n > LIMIT { return; }
      ghost var m := M();
      if freep.Some? { SkippedGood(m, n); }
      ptr, size := ptr + seq(n, _ => 0), size + seq(n, _ => 0);
      owner := owner + seq(n, _ => Nobody);
      assert M() == Skipped(m, n);
    }

    /**
    Any sequence of calls, up to the first at which the program breaks the rules or a size overruns sbrk's
    argument: each does what Step says, after each the list is fully coalesced and what the program holds is
    live, and no unit malloc manages is lost.
    */
    method Run(calls: seq<Call>) returns (done: nat, ghost run: seq<Space>)
      requires Valid()
      modifies this
      ensures done <= |calls| && Runs(run, calls[..done]) && run[0] == Space(old(M()), old(freep), {})
      ensures Valid() && run[done].m == M() && run[done].freep == freep && OwnedKept(old(owner), owner)
      ensures done < |calls| ==> Stops(run[done], calls[done])
    {
      hide Valid, Fine, Step, Stops, OwnedKept;
      ghost var s := Space(M(), freep, {});
      var held: set<nat> := {};
      StartsFine();
      done, run := 0, [s];
      OwnedSame(owner);
      while done < |calls|
        invariant Valid() && done <= |calls| && Runs(run, calls[..done])
        invariant run[0] == Space(old(M()), old(freep), {}) && run[done] == Space(M(), freep, held)
        invariant OwnedKept(old(owner), owner)
      {
        ghost var before := owner;
        assert Fine(run[done]);
        var stopped: bool;
        stopped, held := Do(calls[done], held);
        if stopped { return; }
        OwnedOn(old(owner), before, owner);
        assert calls[..done + 1][..done] == calls[..done];
        done, run := done + 1, run + [Space(M(), freep, held)];
      }
    }

    lemma StartsFine()
      requires Valid()
      ensures Fine(Space(M(), freep, {}))
    {
      hide Sound;
    }

    /** One call, unless it is one to stop at. */
    method Do(call: Call, held: set<nat>) returns (stopped: bool, held': set<nat>)
      requires Valid() && Fine(Space(M(), freep, held))
      modifies this
      ensures Valid() && Fine(Space(M(), freep, held')) && OwnedKept(old(owner), owner)
      ensures stopped <==> Stops(Space(old(M()), old(freep), held), call)
      ensures stopped ==> M() == old(M()) && freep == old(freep) && held' == held
      ensures !stopped ==> Step(Space(old(M()), old(freep), held), call, Space(M(), freep, held'))
    {
      hide Sound, Allocated, Grown, LiveKept, Returned, Skipped, OwnedKept, IsLive, Grants, Units, HasRoom;
      ghost var m := M();
      OwnedSame(owner);
      Sizes();
      stopped, held' := true, held;
      match call {
        case Obtain(nbytes, granted) =>
          if nbytes >= 0x1_0000_0000 || Overruns(|ptr|, nbytes, granted) { return; }
          var a := Malloc(nbytes, granted);
          Sizes();
          if a.Got? {
            AllocatedKeeps(m, M(), a.p - 1, Units(nbytes));
            NewBlock(m, M(), a.p - 1, Units(nbytes));
            held' := held + {a.p};
            ghost var h: nat := a.p - 1;
            assert h + 1 !in held && Allocated(m, M(), h, Units(nbytes));
          } else {
            GrownKeeps(m, M());
          }
        case Release(p) =>
          if p == 0 || p !in held { return; }
          Free(p);
          FreeKeeps(m, M(), p - 1);
          held' := held - {p};
        case Fill(p, offset, x, y) =>
          if p == 0 || p !in held || p + offset >= |size| || offset + 1 >= size[p - 1] { return; }
          LiveMeansStarted(p - 1);
          InBlock(p - 1, p + offset);
          Fill(p + offset, x, y);
          SameLive(m, M());
        case Break(n, granted) =>
          Sbrk(n, granted);
          if granted && |m.owner| + n <= LIMIT { SkippedKeeps(m, n); }
      }
      stopped := false;
    }

    lemma Sizes()
      requires Valid()
      ensures |ptr| == |size| == |owner|
    {
    }

    lemma InBlock(h: nat, u: nat)
      requires Valid() && freep.Some? && IsLive(M(), h) && h < |size| && h < u < h + size[h]
      ensures u < |owner| && owner[u].Live? && owner[u] != Live(u)
    {
      hide Coalesced, Shape;
      LiveBlock(M(), h, u);
    }

    lemma LiveMeansStarted(bp: nat)
      requires Valid() && IsLive(M(), bp)
      ensures freep.Some? && bp < |size|
    {
    }
  }

  /** Whatever has been done before, malloc of 2^31 - 31 bytes asks sbrk for -2^31, and that ends the run. */
  lemma AskTooMuch(s: Space, granted: bool)
    ensures Legal(s, Obtain(0x7FFF_FFE1, granted)) && Stops(s, Obtain(0x7FFF_FFE1, granted))
    ensures ToInt(Asked(Units(0x7FFF_FFE1)) * HEADER) == -0x8000_0000
  {
    assert Units(0x7FFF_FFE1) == 0x800_0000;
    OverrunsWhen(|s.m.ptr|, 0x7FFF_FFE1, granted);
  }

  lemma CycleAt(m: Heap, i: nat)
    requires Good(m) && i < |m.list|
    ensures m.list[i] < |m.ptr| && m.ptr[m.list[i]] == After(m.list, i)
  {
  }
}
