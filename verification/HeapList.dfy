/**
The free list of user/umalloc.c as values: memory in units of one Header (16 bytes), the circular
list read off the headers, and for every unit the block it belongs to.
*/
module HeapList {
  /** The static header `base`, below everything sbrk returns; it always heads the list. */
  const BASE: nat := 0

  /** The block a unit is in, named by its header. */
  datatype Owner = Nobody | Free(h: nat) | Live(h: nat)

  datatype Heap = Heap(
    ptr: seq<nat>,      // s.ptr, read at every unit
    size: seq<nat>,     // s.size, read at every unit
    list: seq<nat>,     // the free headers in list order, starting from base
    owner: seq<Owner>)

  ghost predicate Shape(m: Heap) {
    && |m.ptr| == |m.size| == |m.owner| && |m.list| > 0 && m.list[0] == BASE
    && (forall i :: 0 <= i < |m.list| ==> m.list[i] < |m.ptr|)
  }

  predicate Ordered(list: seq<nat>) {
    forall i, j :: 0 <= i < j < |list| ==> list[i] < list[j]
  }

  /** The header after the i-th one, around the cycle. */
  function After(list: seq<nat>, i: nat): nat
    requires i < |list|
  {
    if i + 1 < |list| then list[i + 1] else list[0]
  }

  ghost predicate Cyclic(m: Heap)
    requires Shape(m)
  {
    forall i :: 0 <= i < |m.list| ==> m.ptr[m.list[i]] == After(m.list, i)
  }

  /** The units that belong to o are exactly those of the block with header h. */
  ghost predicate Spans(m: Heap, h: nat, o: Owner) {
    && h < |m.size| && h + m.size[h] <= |m.owner|
    && forall u :: 0 <= u < |m.owner| ==> (m.owner[u] == o <==> h <= u < h + m.size[h])
  }

  ghost predicate FreeSpans(m: Heap) {
    forall i :: 1 <= i < |m.list| ==> Spans(m, m.list[i], Free(m.list[i]))
  }

  predicate IsLive(m: Heap, h: nat) {
    h < |m.owner| && m.owner[h] == Live(h)
  }

  ghost predicate LiveSpans(m: Heap) {
    forall h :: IsLive(m, h) ==> Spans(m, h, Live(h))
  }

  ghost predicate KnownAt(m: Heap, u: nat)
    requires u < |m.owner|
  {
    match m.owner[u]
    case Nobody => true
    case Free(h) => h != BASE && h in m.list
    case Live(h) => IsLive(m, h)
  }

  ghost predicate Known(m: Heap) {
    forall u :: 0 <= u < |m.owner| ==> KnownAt(m, u)
  }

  ghost predicate Rooted(m: Heap) {
    BASE < |m.owner| && BASE < |m.size| && m.owner[BASE].Nobody? && m.size[BASE] == 0
  }

  ghost predicate Nonempty(m: Heap)
    requires Shape(m)
  {
    forall i :: 1 <= i < |m.list| ==> m.size[m.list[i]] > 0
  }

  /** One address-ordered cycle with a single wrap; live and free blocks disjoint, covering all that is owned. */
  ghost predicate Good(m: Heap) {
    Shape(m) && Ordered(m.list) && Cyclic(m) && Rooted(m) && Nonempty(m) && FreeSpans(m) && LiveSpans(m) && Known(m)
  }

  predicate TouchesNext(m: Heap, i: nat)
    requires i + 1 < |m.list| && m.list[i] < |m.size|
  {
    m.list[i] + m.size[m.list[i]] == m.list[i + 1]
  }

  ghost predicate Coalesced(m: Heap)
    requires Shape(m)
  {
    forall i: nat :: i + 1 < |m.list| ==> !TouchesNext(m, i)
  }

  function Relabel(owner: seq<Owner>, was: Owner, now: Owner): (r: seq<Owner>)
    ensures |r| == |owner|
    ensures forall u :: 0 <= u < |owner| ==> r[u] == if owner[u] == was then now else owner[u]
  {
    seq(|owner|, u requires 0 <= u < |owner| => if owner[u] == was then now else owner[u])
  }

  // ---- linking a block in ----

  /** The live block bp becomes free, between the i-th free block and the one after it. */
  function Link(m: Heap, i: nat, bp: nat): Heap
    requires i < |m.list| && m.list[i] < |m.ptr| && bp < |m.ptr|
  {
    Heap(m.ptr[bp := After(m.list, i)][m.list[i] := bp], m.size, m.list[..i + 1] + [bp] + m.list[i + 1..],
         Relabel(m.owner, Live(bp), Free(bp)))
  }

  /** bp belongs between the i-th free block and the one after it. */
  predicate Belongs(m: Heap, i: nat, bp: nat) {
    i < |m.list| && m.list[i] < bp && (i + 1 < |m.list| ==> bp < m.list[i + 1])
  }

  function Inserted(list: seq<nat>, i: nat, bp: nat): seq<nat>
    requires i < |list|
  {
    list[..i + 1] + [bp] + list[i + 1..]
  }

  lemma InsertedOrdered(list: seq<nat>, i: nat, bp: nat)
    requires Ordered(list) && i < |list| && list[i] < bp && (i + 1 < |list| ==> bp < list[i + 1])
    ensures Ordered(Inserted(list, i, bp)) && |Inserted(list, i, bp)| == |list| + 1
    ensures forall k :: 0 <= k < |list| + 1 ==>
              Inserted(list, i, bp)[k] == if k <= i then list[k] else if k == i + 1 then bp else list[k - 1]
    ensures bp !in list && forall h :: h in Inserted(list, i, bp) <==> h in list || h == bp
  {
    var r := Inserted(list, i, bp);
    forall h ensures h in r <==> h in list || h == bp {
      if h in list {
        var k :| 0 <= k < |list| && list[k] == h;
        assert r[if k <= i then k else k + 1] == h;
      }
      if h == bp { assert r[i + 1] == h; }
    }
    forall k | 0 <= k < |list| ensures list[k] != bp {
      if k > i + 1 { assert list[i + 1] < list[k]; }
      if k < i { assert list[k] < list[i]; }
    }
  }

  /** What follows the k-th header once bp is in. */
  lemma InsertedAfter(list: seq<nat>, i: nat, bp: nat, k: nat)
    requires i < |list| && k <= |list|
    ensures |Inserted(list, i, bp)| == |list| + 1
    ensures var r := Inserted(list, i, bp);
      if k < i then r[k] == list[k] && After(r, k) == After(list, k)
      else if k == i then r[k] == list[k] && After(r, k) == bp
      else if k == i + 1 then r[k] == bp && After(r, k) == After(list, i)
      else r[k] == list[k - 1] && After(r, k) == After(list, k - 1)
  {
  }

  lemma LinkCyclicAt(m: Heap, i: nat, bp: nat, k: nat)
    requires Shape(m) && Ordered(m.list) && Cyclic(m) && Belongs(m, i, bp) && bp < |m.ptr| && k <= |m.list|
    ensures |Inserted(m.list, i, bp)| == |m.list| + 1
    ensures var r := Inserted(m.list, i, bp); r[k] < |m.ptr| && Link(m, i, bp).ptr[r[k]] == After(r, k)
  {
    hide Inserted, Ordered, After, Link;
    InsertedAfter(m.list, i, bp, k);
    LinkPtr(m, i, bp);
    if k != i && k != i + 1 {
      var k' := if k < i then k else k - 1;
      OtherPlace(m, i, bp, k');
      assert m.ptr[m.list[k']] == After(m.list, k');
    }
  }

  lemma LinkPtr(m: Heap, i: nat, bp: nat)
    requires Shape(m) && i < |m.list| && bp < |m.ptr| && m.list[i] != bp
    ensures var r := Link(m, i, bp).ptr; |r| == |m.ptr| && r[bp] == After(m.list, i) && r[m.list[i]] == bp
    ensures forall u :: 0 <= u < |m.ptr| && u != bp && u != m.list[i] ==> Link(m, i, bp).ptr[u] == m.ptr[u]
  {
  }

  lemma OtherPlace(m: Heap, i: nat, bp: nat, k: nat)
    requires Ordered(m.list) && Belongs(m, i, bp) && k < |m.list| && k != i
    ensures m.list[k] != m.list[i] && m.list[k] != bp
  {
    if k > i + 1 { assert m.list[i + 1] < m.list[k]; }
    if k < i { assert m.list[k] < m.list[i]; }
  }

  lemma LinkCyclic(m: Heap, i: nat, bp: nat)
    requires Shape(m) && Ordered(m.list) && Cyclic(m) && Belongs(m, i, bp) && bp < |m.ptr|
    ensures Shape(Link(m, i, bp)) && Ordered(Link(m, i, bp).list) && Cyclic(Link(m, i, bp))
  {
    hide Ordered;
    InsertedOrdered(m.list, i, bp);
    var r := Link(m, i, bp);
    assert r.list == Inserted(m.list, i, bp);
    forall k | 0 <= k < |r.list| ensures r.ptr[r.list[k]] == After(r.list, k) {
      LinkCyclicAt(m, i, bp, k);
    }
  }

  /** In r the block at bp has gone from live to free, as far as blocks go. */
  ghost predicate Released(m: Heap, r: Heap, bp: nat) {
    r.size == m.size && r.owner == Relabel(m.owner, Live(bp), Free(bp))
  }

  lemma ReleasedSpans(m: Heap, r: Heap, bp: nat)
    requires Released(m, r, bp) && Spans(m, bp, Live(bp)) && forall u :: 0 <= u < |m.owner| ==> m.owner[u] != Free(bp)
    ensures Spans(r, bp, Free(bp))
  {
  }

  lemma ReleasedOthers(m: Heap, r: Heap, bp: nat, g: nat, o: Owner)
    requires Released(m, r, bp) && Spans(m, g, o) && o != Live(bp) && o != Free(bp)
    ensures Spans(r, g, o)
  {
  }

  lemma ReleasedLive(m: Heap, r: Heap, bp: nat, g: nat)
    requires Released(m, r, bp)
    ensures IsLive(r, g) <==> IsLive(m, g) && g != bp
  {
  }

  lemma LinkSpans(m: Heap, i: nat, bp: nat)
    requires Good(m) && Belongs(m, i, bp) && IsLive(m, bp) && Shape(m) && bp < |m.ptr| && Shape(Link(m, i, bp))
    ensures var r := Link(m, i, bp); FreeSpans(r) && LiveSpans(r) && Nonempty(r)
  {
    hide Cyclic, Ordered, Released, Spans, Relabel, Known, Rooted;
    InsertedOrdered(m.list, i, bp);
    var r := Link(m, i, bp);
    assert r.list == Inserted(m.list, i, bp);
    hide Inserted;
    LinkReleased(m, i, bp);
    assert Spans(m, bp, Live(bp));
    NotFree(m, bp);
    ReleasedSpans(m, r, bp);
    forall k | 1 <= k < |r.list| ensures Spans(r, r.list[k], Free(r.list[k])) && r.size[r.list[k]] > 0 {
      if k != i + 1 {
        var h := m.list[if k <= i then k else k - 1];
        assert Spans(m, h, Free(h)) && r.list[k] == h;
        ReleasedOthers(m, r, bp, h, Free(h));
      }
    }
    forall h | IsLive(r, h) ensures Spans(r, h, Live(h)) {
      ReleasedLive(m, r, bp, h);
      assert Spans(m, h, Live(h));
      ReleasedOthers(m, r, bp, h, Live(h));
    }
  }

  lemma LinkReleased(m: Heap, i: nat, bp: nat)
    requires i < |m.list| && m.list[i] < |m.ptr| && bp < |m.ptr|
    ensures Released(m, Link(m, i, bp), bp)
  {
  }

  lemma LinkKnown(m: Heap, i: nat, bp: nat)
    requires Good(m) && Belongs(m, i, bp) && IsLive(m, bp) && Shape(m) && bp < |m.ptr|
    ensures var r := Link(m, i, bp); Known(r) && Rooted(r)
  {
    hide Cyclic, Ordered, LiveSpans, FreeSpans;
    InsertedOrdered(m.list, i, bp);
    var r := Link(m, i, bp);
    assert r.list == Inserted(m.list, i, bp);
    NotFree(m, bp);
    forall u | 0 <= u < |r.owner| ensures KnownAt(r, u) { assert KnownAt(m, u); }
  }

  lemma NotFree(m: Heap, bp: nat)
    requires Good(m) && IsLive(m, bp)
    ensures m.owner[bp] == Live(bp) && bp != BASE && m.size[bp] > 0
    ensures forall u :: 0 <= u < |m.owner| ==> m.owner[u] != Free(bp)
  {
    assert Spans(m, bp, Live(bp));
    forall k | 0 <= k < |m.list| ensures m.list[k] != bp {
      if k > 0 { assert Spans(m, m.list[k], Free(m.list[k])); }
    }
    forall u | 0 <= u < |m.owner| ensures m.owner[u] != Free(bp) { assert KnownAt(m, u); }
  }

  lemma LinkGood(m: Heap, i: nat, bp: nat)
    requires Good(m) && Belongs(m, i, bp) && IsLive(m, bp)
    ensures Good(Link(m, i, bp))
  {
    hide Shape, Ordered, Cyclic, Spans, FreeSpans, LiveSpans, Known, Rooted, Nonempty, Link;
    LiveInRange(m, bp);
    LinkCyclic(m, i, bp);
    LinkSpans(m, i, bp);
    LinkKnown(m, i, bp);
  }

  lemma LiveInRange(m: Heap, bp: nat)
    requires Shape(m) && IsLive(m, bp)
    ensures bp < |m.ptr| && |m.ptr| == |m.size|
  {
  }

  // ---- joining two blocks that touch ----

  function Join(m: Heap, j: nat): Heap
    requires Shape(m) && j + 1 < |m.list|
  {
    var h, next := m.list[j], m.list[j + 1];
    Heap(m.ptr[h := m.ptr[next]], m.size[h := m.size[h] + m.size[next]], m.list[..j + 1] + m.list[j + 2..],
         Relabel(m.owner, Free(next), Free(h)))
  }

  function Without(list: seq<nat>, k: nat): seq<nat>
    requires k < |list|
  {
    list[..k] + list[k + 1..]
  }

  lemma WithoutOrdered(list: seq<nat>, k: nat)
    requires Ordered(list) && 0 < k < |list|
    ensures Ordered(Without(list, k)) && |Without(list, k)| == |list| - 1
    ensures forall i :: 0 <= i < |list| - 1 ==> Without(list, k)[i] == list[if i < k then i else i + 1]
    ensures list[k] !in Without(list, k)
    ensures forall h :: h in Without(list, k) <==> h in list && h != list[k]
  {
    var r := Without(list, k);
    forall h | h in list && h != list[k] ensures h in r {
      var i :| 0 <= i < |list| && list[i] == h;
      assert r[if i < k then i else i - 1] == h;
    }
  }

  lemma JoinCyclic(m: Heap, j: nat)
    requires Shape(m) && Ordered(m.list) && Cyclic(m) && j + 1 < |m.list|
    ensures var r := Join(m, j); Shape(r) && Ordered(r.list) && Cyclic(r)
    ensures Join(m, j).list == Without(m.list, j + 1)
  {
    var r := Join(m, j);
    assert r.list == Without(m.list, j + 1);
    WithoutOrdered(m.list, j + 1);
    hide Without, Ordered;
    forall k | 0 <= k < |r.list| ensures r.ptr[r.list[k]] == After(r.list, k) {
      JoinCyclicAt(m, j, k);
    }
  }

  lemma JoinCyclicAt(m: Heap, j: nat, k: nat)
    requires Shape(m) && Ordered(m.list) && Cyclic(m) && j + 1 < |m.list| && k < |m.list| - 1
    ensures var r := Without(m.list, j + 1); |r| == |m.list| - 1 && Join(m, j).ptr[r[k]] == After(r, k)
  {
    WithoutOrdered(m.list, j + 1);
    hide Without;
    var k' := if k <= j then k else k + 1;
    assert m.ptr[m.list[k']] == After(m.list, k');
    assert m.ptr[m.list[j + 1]] == After(m.list, j + 1);
  }

  /** r is m with the block next joined to the block h before it, as far as blocks go. */
  ghost predicate Joined(m: Heap, r: Heap, h: nat, next: nat) {
    && h < |m.size| && next < |m.size|
    && r.size == m.size[h := m.size[h] + m.size[next]] && r.owner == Relabel(m.owner, Free(next), Free(h))
  }

  lemma JoinedSpans(m: Heap, r: Heap, h: nat, next: nat)
    requires Joined(m, r, h, next) && h != next && h + m.size[h] == next
    requires Spans(m, h, Free(h)) && Spans(m, next, Free(next))
    ensures Spans(r, h, Free(h))
  {
  }

  lemma OtherSpans(m: Heap, r: Heap, h: nat, next: nat, g: nat, o: Owner)
    requires Joined(m, r, h, next) && g != h && o != Free(h) && o != Free(next) && Spans(m, g, o)
    ensures Spans(r, g, o)
  {
  }

  lemma JoinFacts(m: Heap, j: nat)
    requires Shape(m) && Ordered(m.list) && j + 1 < |m.list|
    ensures var r := Join(m, j);
      && Joined(m, r, m.list[j], m.list[j + 1]) && |r.list| == |m.list| - 1
      && (forall k :: 0 <= k < |r.list| ==> r.list[k] == m.list[if k <= j then k else k + 1])
    ensures forall h :: h in Join(m, j).list <==> h in m.list && h != m.list[j + 1]
    ensures forall k :: 0 <= k < |m.list| && k != j + 1 ==> m.list[k] != m.list[j + 1]
    ensures forall k :: 0 <= k < |m.list| && k != j ==> m.list[k] != m.list[j]
  {
    WithoutOrdered(m.list, j + 1);
    assert Join(m, j).list == Without(m.list, j + 1);
  }

  lemma JoinSpans(m: Heap, j: nat)
    requires Good(m) && 1 <= j && j + 1 < |m.list| && TouchesNext(m, j) && Shape(Join(m, j))
    ensures var r := Join(m, j); FreeSpans(r) && LiveSpans(r) && Nonempty(r)
  {
    hide Cyclic, Join, Ordered, Joined, Spans, Relabel, Known, Rooted;
    var r := Join(m, j);
    JoinFacts(m, j);
    var h, next := m.list[j], m.list[j + 1];
    JoinedSpans(m, r, h, next);
    forall k | 1 <= k < |r.list| ensures Spans(r, r.list[k], Free(r.list[k])) && r.size[r.list[k]] > 0 {
      var g := m.list[if k <= j then k else k + 1];
      assert Spans(m, g, Free(g));
      if k != j { OtherSpans(m, r, h, next, g, Free(g)); }
      JoinedSizes(m, r, h, next, g);
    }
    forall g | IsLive(r, g) ensures Spans(r, g, Live(g)) {
      JoinedLive(m, r, h, next, g);
      assert Spans(m, g, Live(g));
      LiveNotListed(m, g, h);
      OtherSpans(m, r, h, next, g, Live(g));
    }
  }

  lemma JoinedSizes(m: Heap, r: Heap, h: nat, next: nat, g: nat)
    requires Joined(m, r, h, next) && g < |m.size|
    ensures |r.size| == |m.size| && r.size[g] >= m.size[g]
  {
  }

  lemma JoinedLive(m: Heap, r: Heap, h: nat, next: nat, g: nat)
    requires Joined(m, r, h, next)
    ensures IsLive(r, g) <==> IsLive(m, g)
  {
  }

  lemma LiveNotListed(m: Heap, g: nat, h: nat)
    requires Good(m) && IsLive(m, g) && h in m.list
    ensures g != h
  {
    var k :| 0 <= k < |m.list| && m.list[k] == h;
    if k > 0 { assert Spans(m, m.list[k], Free(m.list[k])); }
  }

  lemma JoinKnown(m: Heap, j: nat)
    requires Good(m) && 1 <= j && j + 1 < |m.list| && TouchesNext(m, j) && Shape(Join(m, j))
    ensures var r := Join(m, j); Known(r) && Rooted(r)
  {
    hide Cyclic, Join, Ordered, Spans, FreeSpans, LiveSpans;
    var r := Join(m, j);
    JoinFacts(m, j);
    forall u | 0 <= u < |r.owner| ensures KnownAt(r, u) { assert KnownAt(m, u); }
  }

  lemma JoinGood(m: Heap, j: nat)
    requires Good(m) && 1 <= j && j + 1 < |m.list| && TouchesNext(m, j)
    ensures Good(Join(m, j)) && |Join(m, j).list| == |m.list| - 1
  {
    hide Cyclic, Spans, FreeSpans, LiveSpans, Known, Rooted, Nonempty, Join;
    JoinCyclic(m, j);
    JoinFacts(m, j);
    JoinSpans(m, j);
    JoinKnown(m, j);
  }
}
