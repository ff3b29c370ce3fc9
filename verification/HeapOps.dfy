/** What free, malloc and morecore make of the heap, and that the fully coalesced list is kept. */
module HeapOps {
  import opened HeapList

  // ---- free ----

  function JoinIf(m: Heap, j: nat): Heap
    requires Shape(m) && j < |m.list|
  {
    if j + 1 < |m.list| && TouchesNext(m, j) then Join(m, j) else m
  }

  /** bp is linked in after the i-th free block, and joined to the next and to that one if it touches them. */
  function Freed(m: Heap, i: nat, bp: nat): Heap
    requires Good(m) && Belongs(m, i, bp) && IsLive(m, bp)
  {
    LinkGood(m, i, bp);
    var a := Link(m, i, bp);
    var b := JoinIf(a, i + 1);
    assert Shape(b) by { JoinIfShape(a, i + 1); }
    JoinIf(b, i)
  }

  lemma JoinIfShape(m: Heap, j: nat)
    requires Good(m) && 1 <= j < |m.list|
    ensures Good(JoinIf(m, j)) && j < |JoinIf(m, j).list| && Shape(JoinIf(m, j))
  {
    hide Good, Join;
    GoodShape(m);
    if j + 1 < |m.list| && TouchesNext(m, j) { JoinGood(m, j); }
    GoodShape(JoinIf(m, j));
  }

  lemma GoodShape(m: Heap)
    requires Good(m)
    ensures Shape(m) && Ordered(m.list) && Rooted(m) && Nonempty(m)
  {
  }

  /** No two neighbours touch, except perhaps at the places lo and hi. */
  ghost predicate CoalescedBut(m: Heap, lo: nat, hi: nat)
    requires Shape(m)
  {
    forall k: nat :: k + 1 < |m.list| && k != lo && k != hi ==> !TouchesNext(m, k)
  }

  lemma LinkFacts(m: Heap, i: nat, bp: nat)
    requires Shape(m) && Ordered(m.list) && Belongs(m, i, bp) && bp < |m.ptr|
    ensures var r := Link(m, i, bp);
      && Shape(r) && r.size == m.size && |r.list| == |m.list| + 1
      && (forall k {:trigger r.list[k]} :: 0 <= k <= i ==> r.list[k] == m.list[k])
      && r.list[i + 1] == bp
      && (forall k {:trigger r.list[k]} :: i + 1 < k <= |m.list| ==> r.list[k] == m.list[k - 1])
  {
    InsertedOrdered(m.list, i, bp);
    assert Link(m, i, bp).list == Inserted(m.list, i, bp);
  }

  lemma InRange(m: Heap, i: nat, bp: nat)
    requires Shape(m) && Belongs(m, i, bp) && IsLive(m, bp)
    ensures i < |m.list| && m.list[i] < |m.ptr| && bp < |m.ptr|
  {
  }

  lemma LinkTouches(m: Heap, i: nat, bp: nat)
    requires Shape(m) && Ordered(m.list) && Coalesced(m) && Belongs(m, i, bp) && bp < |m.ptr|
    ensures Shape(Link(m, i, bp)) && CoalescedBut(Link(m, i, bp), i, i + 1)
  {
    hide Link;
    LinkFacts(m, i, bp);
    var r := Link(m, i, bp);
    forall k: nat | k + 1 < |r.list| && k != i && k != i + 1 ensures !TouchesNext(r, k) {
      var k' := if k < i then k else k - 1;
      assert r.list[k] == m.list[k'] && r.list[k + 1] == m.list[k' + 1];
      assert !TouchesNext(m, k');
    }
  }

  lemma JoinTouches(m: Heap, j: nat)
    requires Good(m) && j + 1 < |m.list| && TouchesNext(m, j)
    ensures Shape(Join(m, j)) && |Join(m, j).list| == |m.list| - 1
    ensures forall k: nat :: k + 1 < |m.list| - 1 ==>
              (TouchesNext(Join(m, j), k) <==> TouchesNext(m, if k < j then k else k + 1))
  {
    hide Cyclic, FreeSpans, LiveSpans, Known, Ordered, Join;
    JoinFacts(m, j);
    JoinShape(m, j);
    var r := Join(m, j);
    forall k: nat | k + 1 < |r.list| ensures TouchesNext(r, k) <==> TouchesNext(m, if k < j then k else k + 1) {
      if k == j { assert r.list[k + 1] == m.list[j + 2]; }
      assert r.list[k] == m.list[if k <= j then k else k + 1];
    }
  }

  lemma JoinShape(m: Heap, j: nat)
    requires Shape(m) && j + 1 < |m.list|
    ensures Shape(Join(m, j))
  {
  }

  lemma JoinIfTouches(m: Heap, j: nat, lo: nat)
    requires Good(m) && 1 <= j < |m.list| && (lo <= j) && CoalescedBut(m, lo, j)
    ensures Good(JoinIf(m, j)) && Shape(JoinIf(m, j)) && CoalescedBut(JoinIf(m, j), lo, lo)
    ensures lo < j ==> JoinIf(m, j).list[lo] == m.list[lo]
  {
    hide Good, Join, Shape, TouchesNext;
    GoodShape(m);
    JoinIfShape(m, j);
    if j + 1 < |m.list| && TouchesNext(m, j) {
      JoinTouches(m, j);
      JoinFacts(m, j);
      forall k: nat | k + 1 < |m.list| - 1 && k != lo ensures !TouchesNext(Join(m, j), k) {
        assert !TouchesNext(m, if k < j then k else k + 1);
      }
    }
  }

  lemma BaseNeverTouches(m: Heap)
    requires Good(m) && |m.list| > 1
    ensures !TouchesNext(m, 0)
  {
    assert m.list[0] < m.list[1];
  }

  /** free keeps the list one ordered cycle, and leaves no two touching blocks. */
  lemma FreedCoalesced(m: Heap, i: nat, bp: nat)
    requires Good(m) && Belongs(m, i, bp) && IsLive(m, bp) && Shape(m) && Coalesced(m)
    ensures Good(Freed(m, i, bp)) && Shape(Freed(m, i, bp)) && Coalesced(Freed(m, i, bp))
    ensures i < |Freed(m, i, bp).list| && Freed(m, i, bp).list[i] == m.list[i]
  {
    hide Good, Shape, Join, Link, JoinIf;
    GoodShape(m);
    InRange(m, i, bp);
    LinkGood(m, i, bp);
    LinkFacts(m, i, bp);
    LinkTouches(m, i, bp);
    var a := Link(m, i, bp);
    GoodShape(a);
    JoinIfTouches(a, i + 1, i);
    JoinIfShape(a, i + 1);
    var b := JoinIf(a, i + 1);
    if i == 0 { JoinIfBase(b); }
    else {
      assert b.list[i] == a.list[i] == m.list[i];
      JoinIfLast(b, i);
      JoinIfShape(b, i);
    }
  }

  lemma JoinIfBase(m: Heap)
    requires Good(m) && Shape(m) && CoalescedBut(m, 0, 0)
    ensures JoinIf(m, 0) == m && Coalesced(m)
  {
    if |m.list| > 1 { BaseNeverTouches(m); }
  }

  lemma JoinIfLast(m: Heap, i: nat)
    requires Good(m) && 1 <= i < |m.list| && Shape(m) && CoalescedBut(m, i, i)
    ensures Shape(JoinIf(m, i)) && Coalesced(JoinIf(m, i)) && i < |JoinIf(m, i).list|
    ensures JoinIf(m, i).list[i] == m.list[i]
  {
    hide Good, Join, TouchesNext, Shape;
    GoodShape(m);
    JoinIfShape(m, i);
    if i + 1 < |m.list| && TouchesNext(m, i) {
      JoinTouches(m, i);
      JoinFacts(m, i);
      forall k: nat | k + 1 < |m.list| - 1 ensures !TouchesNext(Join(m, i), k) {
        assert !TouchesNext(m, if k < i then k else k + 1);
      }
    }
  }

  // ---- malloc ----

  /** A block of exactly the size asked for leaves the list. */
  function Taken(m: Heap, i: nat): Heap
    requires 1 <= i < |m.list| && m.list[i] < |m.ptr| && m.list[i - 1] < |m.ptr|
  {
    var h := m.list[i];
    Heap(m.ptr[m.list[i - 1] := m.ptr[h]], m.size, Without(m.list, i), Relabel(m.owner, Free(h), Live(h)))
  }

  /** The last n units of a larger block become a block of their own. */
  function Carved(m: Heap, h: nat, n: nat): Heap
    requires h < |m.size| && n <= m.size[h] && h + m.size[h] - n < |m.size|
  {
    var rest := m.size[h] - n;
    Heap(m.ptr, m.size[h := rest][h + rest := n], m.list,
         seq(|m.owner|,
             u requires 0 <= u < |m.owner| => if h + rest <= u < h + rest + n then Live(h + rest) else m.owner[u]))
  }

  lemma TakenCyclic(m: Heap, i: nat)
    requires Shape(m) && Ordered(m.list) && Cyclic(m) && 1 <= i < |m.list|
    ensures Shape(Taken(m, i)) && Ordered(Taken(m, i).list) && Cyclic(Taken(m, i))
  {
    var r := Taken(m, i);
    WithoutOrdered(m.list, i);
    hide Ordered;
    forall k | 0 <= k < |r.list| ensures r.ptr[r.list[k]] == After(r.list, k) {
      TakenCyclicAt(m, i, k);
    }
  }

  lemma TakenCyclicAt(m: Heap, i: nat, k: nat)
    requires Shape(m) && Ordered(m.list) && Cyclic(m) && 1 <= i < |m.list| && k < |m.list| - 1
    ensures var r := Taken(m, i);
            |r.list| == |m.list| - 1 && r.list[k] < |r.ptr| && r.ptr[r.list[k]] == After(r.list, k)
  {
    WithoutOrdered(m.list, i);
    hide Without;
    var k' := if k < i then k else k + 1;
    assert m.ptr[m.list[k']] == After(m.list, k');
    assert m.ptr[m.list[i]] == After(m.list, i);
  }

  lemma TakenSpans(m: Heap, i: nat)
    requires Good(m) && 1 <= i < |m.list| && Shape(m) && Shape(Taken(m, i))
    ensures var r := Taken(m, i);
            FreeSpans(r) && LiveSpans(r) && Known(r) && Rooted(r) && Nonempty(r) && IsLive(r, m.list[i])
  {
    hide Cyclic, Ordered, Without;
    var r := Taken(m, i);
    var h := m.list[i];
    WithoutOrdered(m.list, i);
    assert Spans(m, h, Free(h));
    forall u | 0 <= u < |m.owner| ensures m.owner[u] != Live(h) { assert KnownAt(m, u); }
    assert Spans(r, h, Live(h));
    forall k | 1 <= k < |r.list| ensures Spans(r, r.list[k], Free(r.list[k])) && r.size[r.list[k]] > 0 {
      var g := m.list[if k < i then k else k + 1];
      assert Spans(m, g, Free(g)) && g in r.list && r.list[k] == g;
    }
    forall g | IsLive(r, g) ensures Spans(r, g, Live(g)) {
      if g != h { assert Spans(m, g, Live(g)); }
    }
    forall u | 0 <= u < |r.owner| ensures KnownAt(r, u) { assert KnownAt(m, u); }
  }

  lemma TakenTouches(m: Heap, i: nat)
    requires Good(m) && 1 <= i < |m.list| && Shape(m) && Coalesced(m) && Shape(Taken(m, i))
    ensures Coalesced(Taken(m, i))
  {
    hide Cyclic, Known, LiveSpans, Without;
    var r := Taken(m, i);
    WithoutOrdered(m.list, i);
    EndsBefore(m, i - 1);
    forall k: nat | k + 1 < |r.list| ensures !TouchesNext(r, k) {
      var k' := if k < i then k else k + 1;
      assert !TouchesNext(m, k');
      assert r.list[k] == m.list[k'] && r.list[k + 1] == m.list[if k + 1 < i then k + 1 else k + 2];
    }
  }

  /** A free block ends before the next one begins. */
  lemma EndsBefore(m: Heap, i: nat)
    requires Good(m) && i + 1 < |m.list|
    ensures m.list[i] + m.size[m.list[i]] <= m.list[i + 1] < |m.size|
  {
    hide Cyclic, Known, LiveSpans;
    assert Spans(m, m.list[i + 1], Free(m.list[i + 1]));
    assert m.owner[m.list[i + 1]] == Free(m.list[i + 1]);
    if i > 0 { assert Spans(m, m.list[i], Free(m.list[i])); }
    assert m.list[i] < m.list[i + 1];
  }

  lemma TakenGood(m: Heap, i: nat)
    requires Good(m) && Shape(m) && Coalesced(m) && 1 <= i < |m.list|
    ensures Good(Taken(m, i)) && Shape(Taken(m, i)) && Coalesced(Taken(m, i)) && IsLive(Taken(m, i), m.list[i])
  {
    hide Shape, Ordered, Cyclic, FreeSpans, LiveSpans, Known, Rooted, Nonempty, Taken, IsLive;
    Bounds(m, i - 1);
    Bounds(m, i);
    TakenCyclic(m, i);
    TakenSpans(m, i);
    TakenTouches(m, i);
  }

  lemma Bounds(m: Heap, i: nat)
    requires Shape(m) && i < |m.list|
    ensures m.list[i] < |m.ptr| && |m.ptr| == |m.size| == |m.owner|
  {
  }

  lemma CarvedSpans(m: Heap, i: nat, n: nat)
    requires Good(m) && Shape(m) && 1 <= i < |m.list| && 0 < n < m.size[m.list[i]]
    requires Spans(m, m.list[i], Free(m.list[i]))
    ensures var h := m.list[i]; var r := Carved(m, h, n);
      Spans(r, h, Free(h)) && Spans(r, h + m.size[h] - n, Live(h + m.size[h] - n)) && IsLive(r, h + m.size[h] - n)
  {
    hide Cyclic, Ordered, LiveSpans;
    var h := m.list[i];
    var c := h + m.size[h] - n;
    forall u | 0 <= u < |m.owner| ensures m.owner[u] != Live(c) { assert KnownAt(m, u); }
  }

  lemma CarvedOthers(m: Heap, h: nat, n: nat, g: nat, o: Owner)
    requires h < |m.size| && 0 < n < m.size[h] && Spans(m, h, Free(h)) && |m.size| == |m.owner| && o != Free(h)
    requires Spans(m, g, o) && g != h && g != h + m.size[h] - n && o != Live(h + m.size[h] - n)
    ensures Spans(Carved(m, h, n), g, o)
  {
    assert forall u :: h <= u < h + m.size[h] ==> m.owner[u] == Free(h);
    var r := Carved(m, h, n);
    assert r.size[g] == m.size[g];
    forall u | 0 <= u < |r.owner| ensures r.owner[u] == o <==> g <= u < g + m.size[g] {
      assert m.owner[u] == o <==> g <= u < g + m.size[g];
    }
  }

  lemma CarvedAll(m: Heap, i: nat, n: nat)
    requires Good(m) && Shape(m) && 1 <= i < |m.list| && 0 < n < m.size[m.list[i]]
    requires Spans(m, m.list[i], Free(m.list[i]))
    ensures var r := Carved(m, m.list[i], n);
      Shape(r) && Ordered(r.list) && Cyclic(r) && FreeSpans(r) && LiveSpans(r) && Known(r) && Rooted(r) && Nonempty(r)
  {
    hide FreeSpans, LiveSpans, Known, Spans, Nonempty;
    CarvedSpans(m, i, n);
    CarvedFree(m, i, n);
    CarvedLive(m, i, n);
    CarvedKnown(m, i, n);
  }

  lemma CarvedFree(m: Heap, i: nat, n: nat)
    requires Good(m) && Shape(m) && 1 <= i < |m.list| && 0 < n < m.size[m.list[i]]
    requires Spans(m, m.list[i], Free(m.list[i]))
    ensures var r := Carved(m, m.list[i], n); Shape(r) && FreeSpans(r) && Nonempty(r)
  {
    hide LiveSpans, Known, Cyclic;
    var h := m.list[i];
    var r := Carved(m, h, n);
    CarvedSpans(m, i, n);
    forall k | 1 <= k < |r.list| ensures Spans(r, r.list[k], Free(r.list[k])) && r.size[r.list[k]] > 0 {
      var g := m.list[k];
      assert Spans(m, g, Free(g));
      assert m.owner[g] == Free(g) && m.owner[h + m.size[h] - n] == Free(h);
      if k != i { CarvedOthers(m, h, n, g, Free(g)); }
    }
  }

  lemma CarvedLive(m: Heap, i: nat, n: nat)
    requires Good(m) && Shape(m) && 1 <= i < |m.list| && 0 < n < m.size[m.list[i]]
    requires Spans(m, m.list[i], Free(m.list[i]))
    ensures LiveSpans(Carved(m, m.list[i], n))
  {
    hide FreeSpans, Known, Cyclic, Ordered, Nonempty;
    var h := m.list[i];
    var r := Carved(m, h, n);
    CarvedSpans(m, i, n);
    forall g | IsLive(r, g) ensures Spans(r, g, Live(g)) {
      if g != h + m.size[h] - n { assert IsLive(m, g) && Spans(m, g, Live(g)); CarvedOthers(m, h, n, g, Live(g)); }
    }
  }

  lemma CarvedKnown(m: Heap, i: nat, n: nat)
    requires Good(m) && Shape(m) && 1 <= i < |m.list| && 0 < n < m.size[m.list[i]]
    requires Spans(m, m.list[i], Free(m.list[i]))
    ensures Known(Carved(m, m.list[i], n))
  {
    hide FreeSpans, LiveSpans, Cyclic, Ordered, Nonempty;
    var h := m.list[i];
    var r := Carved(m, h, n);
    assert m.owner[h + m.size[h] - n] == Free(h);
    forall u | 0 <= u < |r.owner| ensures KnownAt(r, u) { assert KnownAt(m, u); }
  }

  lemma CarvedGood(m: Heap, i: nat, n: nat)
    requires Good(m) && Shape(m) && Coalesced(m) && 1 <= i < |m.list| && 0 < n < m.size[m.list[i]]
    requires Spans(m, m.list[i], Free(m.list[i]))
    ensures var r := Carved(m, m.list[i], n);
      Good(r) && Shape(r) && Coalesced(r) && IsLive(r, m.list[i] + m.size[m.list[i]] - n)
  {
    var h := m.list[i];
    var r := Carved(m, h, n);
    CarvedAll(m, i, n);
    CarvedSpans(m, i, n);
    forall k: nat | k + 1 < |r.list| ensures !TouchesNext(r, k) {
      assert !TouchesNext(m, k);
      EndsBefore(m, k);
      if k != i && k > 0 { assert Spans(r, m.list[k], Free(m.list[k])); }
    }
  }

  /** n more units above the others, as one live block: what morecore asks sbrk for. */
  function Extended(m: Heap, n: nat): Heap {
    var sizes := [n] + seq(if n > 0 then n - 1 else 0, _ => 0);
    Heap(m.ptr + seq(n, _ => 0), m.size + sizes, m.list, m.owner + seq(n, _ => Live(|m.owner|)))
  }

  /** The break moved by somebody other than malloc. */
  function Skipped(m: Heap, n: nat): Heap {
    Heap(m.ptr + seq(n, _ => 0), m.size + seq(n, _ => 0), m.list, m.owner + seq(n, _ => Nobody))
  }

  lemma SpansMore(m: Heap, r: Heap, h: nat, o: Owner)
    requires Spans(m, h, o) && |m.size| == |m.owner| && |m.size| <= |r.size| && |m.owner| <= |r.owner|
    requires r.size[..|m.size|] == m.size && r.owner[..|m.owner|] == m.owner
    requires forall u :: |m.owner| <= u < |r.owner| ==> r.owner[u] != o
    ensures Spans(r, h, o)
  {
    assert r.size[h] == m.size[h];
    assert forall u :: 0 <= u < |m.owner| ==> r.owner[u] == m.owner[u];
  }

  lemma ExtendedGood(m: Heap, n: nat)
    requires Good(m) && Shape(m) && Coalesced(m) && n > 0
    ensures Good(Extended(m, n)) && Shape(Extended(m, n)) && Coalesced(Extended(m, n))
    ensures IsLive(Extended(m, n), |m.owner|)
  {
    var r := Extended(m, n);
    MoreGood(m, r, Live(|m.owner|));
  }

  lemma SkippedGood(m: Heap, n: nat)
    requires Good(m) && Shape(m) && Coalesced(m)
    ensures Good(Skipped(m, n)) && Shape(Skipped(m, n)) && Coalesced(Skipped(m, n))
  {
    MoreGood(m, Skipped(m, n), Nobody);
  }

  /** More memory above, all of it o, leaves the list alone. */
  lemma MoreGood(m: Heap, r: Heap, o: Owner)
    requires Good(m) && Shape(m) && Coalesced(m)
    requires |r.ptr| == |r.size| == |r.owner| && |m.owner| <= |r.owner| && r.list == m.list
    requires r.ptr[..|m.ptr|] == m.ptr && r.size[..|m.ptr|] == m.size && r.owner[..|m.ptr|] == m.owner
    requires forall u :: |m.owner| <= u < |r.owner| ==> r.owner[u] == o
    requires o.Nobody? || (o == Live(|m.owner|) && |m.owner| < |r.owner| && |m.owner| + r.size[|m.owner|] == |r.owner|)
    ensures Good(r) && Shape(r) && Coalesced(r)
  {
    assert forall u :: 0 <= u < |m.owner| ==>
           r.owner[u] == m.owner[u] && r.size[u] == m.size[u] && r.ptr[u] == m.ptr[u];
    MoreSpans(m, r, o);
    forall u | 0 <= u < |r.owner| ensures KnownAt(r, u) {
      if u < |m.owner| { assert KnownAt(m, u); }
    }
    forall k: nat | k + 1 < |r.list| ensures !TouchesNext(r, k) { assert !TouchesNext(m, k); }
  }

  lemma MoreSpans(m: Heap, r: Heap, o: Owner)
    requires Good(m) && Shape(m)
    requires |r.ptr| == |r.size| == |r.owner| && |m.owner| <= |r.owner| && r.list == m.list
    requires r.size[..|m.ptr|] == m.size && r.owner[..|m.ptr|] == m.owner
    requires forall u :: 0 <= u < |m.owner| ==> r.owner[u] == m.owner[u] && r.size[u] == m.size[u]
    requires forall u :: |m.owner| <= u < |r.owner| ==> r.owner[u] == o
    requires o.Nobody? || (o == Live(|m.owner|) && |m.owner| < |r.owner| && |m.owner| + r.size[|m.owner|] == |r.owner|)
    ensures FreeSpans(r) && LiveSpans(r)
  {
    hide Cyclic, Ordered;
    forall k | 1 <= k < |r.list| ensures Spans(r, r.list[k], Free(r.list[k])) {
      assert Spans(m, m.list[k], Free(m.list[k]));
      SpansMore(m, r, m.list[k], Free(m.list[k]));
    }
    forall h: nat | IsLive(r, h) ensures Spans(r, h, Live(h)) {
      if h < |m.owner| {
        assert IsLive(m, h) && Spans(m, h, Live(h));
        SpansMore(m, r, h, Live(h));
      } else {
        forall u | 0 <= u < |m.owner| ensures m.owner[u] != Live(h) { assert KnownAt(m, u); }
      }
    }
  }

  // ---- the list is determined by which units are free ----

  ghost predicate SameFree(m: Heap, n: Heap) {
    |m.owner| == |n.owner| && forall u :: 0 <= u < |m.owner| ==> (m.owner[u].Free? <==> n.owner[u].Free?)
  }

  /** A free block begins where free units begin. */
  lemma HeadersBegin(m: Heap, u: nat)
    requires Good(m) && Shape(m) && Coalesced(m) && 0 < u < |m.owner|
    ensures u in m.list <==> m.owner[u].Free? && !m.owner[u - 1].Free?
  {
    hide Cyclic, LiveSpans, Known, Coalesced;
    if u in m.list {
      var k :| 0 <= k < |m.list| && m.list[k] == u;
      assert Spans(m, m.list[k], Free(m.list[k]));
      assert m.owner[u] == Free(u);
      if m.owner[u - 1].Free? {
        var j := BlockOf(m, u - 1);
        NeighboursTouch(m, j, k);
      }
    } else if m.owner[u].Free? {
      var j := BlockOf(m, u);
      assert m.owner[u - 1] == Free(m.list[j]);
    }
  }

  lemma BlockOf(m: Heap, u: nat) returns (j: nat)
    requires Good(m) && u < |m.owner| && m.owner[u].Free?
    ensures 1 <= j < |m.list| && m.owner[u] == Free(m.list[j]) && Spans(m, m.list[j], Free(m.list[j]))
  {
    assert KnownAt(m, u);
    j :| 0 <= j < |m.list| && m.list[j] == m.owner[u].h;
  }

  /** Blocks j and k cannot meet at k's header. */
  lemma NeighboursTouch(m: Heap, j: nat, k: nat)
    requires Good(m) && Shape(m) && Coalesced(m) && 1 <= j < |m.list| && 1 <= k < |m.list|
    ensures m.list[j] + m.size[m.list[j]] != m.list[k]
  {
    if j < k {
      EndsBefore(m, j);
      assert !TouchesNext(m, j);
      if j + 1 < k { assert m.list[j + 1] < m.list[k]; }
    } else if j > k {
      assert m.list[k] < m.list[j];
    }
  }

  /** The free list does not depend on the order in which blocks were obtained and released. */
  lemma ListIsCanonical(m: Heap, n: Heap)
    requires Good(m) && Good(n) && Shape(m) && Shape(n) && Coalesced(m) && Coalesced(n) && SameFree(m, n)
    ensures m.list == n.list
    ensures forall k :: 0 <= k < |m.list| ==>
              m.ptr[m.list[k]] == n.ptr[n.list[k]] && m.size[m.list[k]] == n.size[n.list[k]]
  {
    forall u ensures u in m.list <==> u in n.list {
      if 0 < u < |m.owner| { HeadersBegin(m, u); HeadersBegin(n, u); }
      assert m.list[0] == n.list[0] == BASE;
    }
    OrderedSame(m.list, n.list);
    forall k | 0 <= k < |m.list|
      ensures m.ptr[m.list[k]] == n.ptr[n.list[k]] && m.size[m.list[k]] == n.size[n.list[k]]
    {
      assert m.ptr[m.list[k]] == After(m.list, k) == n.ptr[n.list[k]];
      if k > 0 { SizeWithin(m, n, k); SizeWithin(n, m, k); }
    }
  }

  lemma SizeWithin(m: Heap, n: Heap, k: nat)
    requires Good(m) && Good(n) && Shape(m) && Shape(n) && Coalesced(m) && Coalesced(n) && SameFree(m, n)
    requires m.list == n.list
    requires 1 <= k < |m.list|
    ensures m.size[m.list[k]] <= n.size[n.list[k]]
  {
    var h := m.list[k];
    var e := h + n.size[h];
    assert Spans(m, h, Free(h)) && Spans(n, h, Free(h));
    if m.size[h] > n.size[h] {
      assert m.owner[e] == Free(h) && n.owner[e].Free? && n.owner[e - 1].Free?;
      var j := BlockOf(n, e);
      HeadersBegin(n, e);
    }
  }

  lemma {:induction false} OrderedSame(a: seq<nat>, b: seq<nat>)
    requires Ordered(a) && Ordered(b) && forall u :: u in a <==> u in b
    ensures a == b
    decreases |a|
  {
    if a != [] { assert a[0] in b; }
    if b != [] { assert b[0] in a; }
    if a != [] {
      var x, y := a[|a| - 1], b[|b| - 1];
      assert x in b && y in a;
      assert x == y;
      var a', b' := a[..|a| - 1], b[..|b| - 1];
      forall u ensures u in a' <==> u in b' {
        OrderedFront(a, u);
        OrderedFront(b, u);
      }
      OrderedSame(a', b');
    }
  }

  lemma OrderedFront(a: seq<nat>, u: nat)
    requires Ordered(a) && a != []
    ensures u in a[..|a| - 1] <==> u in a && u != a[|a| - 1]
  {
    if u in a && u != a[|a| - 1] {
      var k :| 0 <= k < |a| && a[k] == u;
      assert a[..|a| - 1][k] == u;
    }
  }
}
