/**
What kernel/virtio_disk.c shares with the device (Virtio 1.1, section 2.6 split virtqueues, section 5.2
block device): descriptors, the two rings with their 16-bit indices, and the requests under way.
*/
module VirtioQueue {
  import opened Sequences
  import opened Wrappers

  const NUM: nat := 8
  const U16: nat := 0x1_0000
  const U32: nat := 0x1_0000_0000
  const BSIZE: nat := 1024
  const SECTOR: nat := 512  // bytes, as the device counts

  type BufId = nat

  datatype Addr = Null | Op(i: nat) | Data(b: BufId) | Status(i: nat)

  /** more and write are the flags VRING_DESC_F_NEXT and VRING_DESC_F_WRITE. */
  datatype Desc = Desc(addr: Addr, len: nat, more: bool, write: bool, next: nat)

  const NO_DESC := Desc(Null, 0, false, false, 0)

  datatype BlkReq = BlkReq(write: bool, sector: nat)

  datatype Info = Info(b: Option<BufId>, status: nat)

  /** A request is filled in, offered to the device, taken by it, on the used ring, or has b->disk cleared. */
  datatype Phase = Ready | Offered | Taken | Used | Cleared

  /** A request under way; its chain is (its key) -> i1 -> i2. */
  datatype Req = Req(buf: BufId, blockno: nat, write: bool, i1: nat, i2: nat, phase: Phase)

  type Requests = map<nat, Req>

  /** b->blockno * (BSIZE / 512), in 32 bits */
  function Sector(blockno: nat): nat {
    blockno * 2 % U32
  }

  predicate InChain(h: nat, r: Req, i: nat) {
    i == h || i == r.i1 || i == r.i2
  }

  predicate ChainIn(desc: seq<Desc>, ops: seq<BlkReq>, h: nat, r: Req) {
    && |desc| == |ops| == NUM && h < NUM && r.i1 < NUM && r.i2 < NUM && h != r.i1 && h != r.i2 && r.i1 != r.i2
    && desc[h] == Desc(Op(h), 16, true, false, r.i1)
    && desc[r.i1] == Desc(Data(r.buf), BSIZE, true, !r.write, r.i2)
    && desc[r.i2] == Desc(Status(h), 1, false, true, 0)
    && ops[h] == BlkReq(r.write, Sector(r.blockno))
  }

  /** Chains do not share descriptors, nor requests buffers. */
  predicate ReqsApart(g: nat, q: Req, h: nat, r: Req) {
    g != h ==> q.buf != r.buf && forall i :: 0 <= i < NUM ==> !(InChain(g, q, i) && InChain(h, r, i))
  }

  ghost predicate Chains(desc: seq<Desc>, ops: seq<BlkReq>, reqs: Requests) {
    && |desc| == |ops| == NUM
    && (forall h <- reqs :: ChainIn(desc, ops, h, reqs[h]))
    && (forall g <- reqs, h <- reqs :: ReqsApart(g, reqs[g], h, reqs[h]))
  }

  /** A descriptor is free, in one chain, or in mine, which alloc3_desc is putting together. */
  ghost predicate Conserved(free: seq<bool>, reqs: Requests, mine: set<nat>) {
    && |free| == NUM && (forall i <- mine :: i < NUM && !free[i])
    && forall i: nat :: i < NUM ==> (free[i] <==> i !in mine && forall h <- reqs :: !InChain(h, reqs[h], i))
  }

  ghost predicate Unclaimed(reqs: Requests, mine: set<nat>) {
    forall i <- mine, h <- reqs :: !InChain(h, reqs[h], i)
  }

  /** A free descriptor is all zero. */
  predicate Blank(free: seq<bool>, desc: seq<Desc>) {
    |free| == |desc| == NUM && forall i: nat :: i < NUM && free[i] ==> desc[i] == NO_DESC
  }

  /** The ring entries from index lo up to index hi, which wrap around at 2^16, are q. */
  ghost predicate Queue(ring: seq<nat>, lo: nat, hi: nat, q: seq<nat>) {
    && |ring| == NUM && lo < U16 && hi == (lo + |q|) % U16 && |q| <= NUM
    && (forall k :: 0 <= k < |q| ==> ring[(lo + k) % NUM] == q[k])
  }

  /** q lists the requests in the given phase, each once. */
  ghost predicate Lists(q: seq<nat>, reqs: Requests, phase: Phase) {
    Distinct(q) && forall h :: h in q <==> h in reqs && reqs[h].phase == phase
  }

  ghost predicate Infos(info: seq<Info>, busy: set<BufId>, reqs: Requests) {
    && |info| == NUM
    && (forall h <- reqs ::
          && h < NUM && info[h].b == Some(reqs[h].buf)
          && (reqs[h].phase.Used? ==> info[h].status == 0)
          && (reqs[h].buf in busy <==> !reqs[h].phase.Cleared?))
    && (forall b <- busy :: exists h :: h in reqs && reqs[h].buf == b)
  }

  // ---- rings ----

  /** ring[idx % NUM] = h; idx += 1, in 16 bits */
  lemma Push(ring: seq<nat>, lo: nat, hi: nat, q: seq<nat>, h: nat)
    requires Queue(ring, lo, hi, q) && |q| < NUM
    ensures hi < U16 && Queue(ring[hi % NUM := h], lo, (hi + 1) % U16, q + [h])
  {
    var r := ring[hi % NUM := h];
    assert hi % NUM == (lo + |q|) % NUM;
    forall k | 0 <= k < |q| + 1 ensures r[(lo + k) % NUM] == (q + [h])[k] {
      if k < |q| { ResiduesDiffer(lo + k, lo + |q|); }
    }
  }

  /** A slot past the last entry is not part of the queue yet. */
  lemma Slot(ring: seq<nat>, lo: nat, hi: nat, q: seq<nat>, h: nat)
    requires Queue(ring, lo, hi, q) && |q| < NUM
    ensures hi < U16 && Queue(ring[hi % NUM := h], lo, hi, q)
  {
    forall k | 0 <= k < |q| ensures ring[hi % NUM := h][(lo + k) % NUM] == q[k] {
      ResiduesDiffer(lo + k, lo + |q|);
    }
  }

  lemma ResiduesDiffer(a: nat, b: nat)
    requires a < b < a + NUM
    ensures a % NUM != b % NUM
  {
  }

  /** idx += 1, in 16 bits, past the oldest entry */
  lemma Pop(ring: seq<nat>, lo: nat, hi: nat, q: seq<nat>)
    requires Queue(ring, lo, hi, q) && q != []
    ensures ring[lo % NUM] == q[0] && Queue(ring, (lo + 1) % U16, hi, q[1..])
  {
    forall k | 0 <= k < |q| - 1 ensures ring[((lo + 1) % U16 + k) % NUM] == q[1..][k] {
      assert ((lo + 1) % U16 + k) % NUM == (lo + (k + 1)) % NUM;
    }
  }

  /** The ring is empty just when the indices agree. */
  lemma EmptyIff(ring: seq<nat>, lo: nat, hi: nat, q: seq<nat>)
    requires Queue(ring, lo, hi, q)
    ensures q == [] <==> lo == hi
  {
  }

  /** Fewer than NUM requests are listed if some descriptor heads none of them. */
  lemma Room(q: seq<nat>, h: nat)
    requires Distinct(q) && (forall i :: 0 <= i < |q| ==> q[i] < NUM) && h < NUM && h !in q
    ensures |q| < NUM
  {
    var all: set<nat> := {0, 1, 2, 3, 4, 5, 6, 7};
    var s := set i | 0 <= i < |q| :: q[i];
    DistinctCount(q);
    assert s <= all - {h};
    SubsetCount(s, all - {h});
  }

  lemma {:induction false} DistinctCount(q: seq<nat>)
    requires Distinct(q)
    ensures |set i | 0 <= i < |q| :: q[i]| == |q|
  {
    if q != [] {
      var p := q[..|q| - 1];
      DistinctCount(p);
      assert (set i | 0 <= i < |q| :: q[i]) == (set i | 0 <= i < |p| :: p[i]) + {q[|q| - 1]};
    }
  }

  lemma {:induction false} SubsetCount(a: set<nat>, b: set<nat>)
    requires a <= b
    ensures |a| <= |b|
    decreases a
  {
    if a != {} {
      var x :| x in a;
      SubsetCount(a - {x}, b - {x});
    }
  }

  // ---- one request more, or less ----

  function Members(h: nat, r: Req): set<nat> {
    {h, r.i1, r.i2}
  }

  lemma AddChain(desc: seq<Desc>, ops: seq<BlkReq>, desc': seq<Desc>, ops': seq<BlkReq>, reqs: Requests, h: nat, r: Req)
    requires Chains(desc, ops, reqs) && ChainIn(desc', ops', h, r) && Unclaimed(reqs, Members(h, r))
    requires forall i :: 0 <= i < NUM && !InChain(h, r, i) ==> desc'[i] == desc[i] && ops'[i] == ops[i]
    requires forall g <- reqs :: reqs[g].buf != r.buf
    ensures h !in reqs && Chains(desc', ops', reqs[h := r])
  {
    if h in reqs { assert InChain(h, reqs[h], h); }
    forall g | g in reqs
      ensures ChainIn(desc', ops', g, reqs[g]) && ReqsApart(g, reqs[g], h, r) && ReqsApart(h, r, g, reqs[g])
    {
      assert ChainIn(desc, ops, g, reqs[g]);
      assert InChain(g, reqs[g], g) && InChain(g, reqs[g], reqs[g].i1) && InChain(g, reqs[g], reqs[g].i2);
    }
  }

  lemma AddConserved(free: seq<bool>, reqs: Requests, h: nat, r: Req)
    requires Conserved(free, reqs, Members(h, r)) && h !in reqs
    ensures Conserved(free, reqs[h := r], {}) && Unclaimed(reqs[h := r], {})
  {
    var reqs' := reqs[h := r];
    forall i: nat | i < NUM ensures free[i] <==> forall g <- reqs' :: !InChain(g, reqs'[g], i) {
      if free[i] {
        forall g | g in reqs' ensures !InChain(g, reqs'[g], i) { if g != h { assert !InChain(g, reqs[g], i); } }
      } else {
        if i in Members(h, r) { assert InChain(h, reqs'[h], i); }
        else {
          var g :| g in reqs && InChain(g, reqs[g], i);
          assert InChain(g, reqs'[g], i);
        }
      }
    }
  }

  /** A request leaves; its descriptors are in hand until they are freed. */
  lemma DropRequest(desc: seq<Desc>, ops: seq<BlkReq>, free: seq<bool>, reqs: Requests, h: nat)
    requires Chains(desc, ops, reqs) && Conserved(free, reqs, {}) && h in reqs
    ensures Chains(desc, ops, reqs - {h}) && Conserved(free, reqs - {h}, Members(h, reqs[h]))
    ensures Unclaimed(reqs - {h}, Members(h, reqs[h]))
  {
    hide InChain, ChainIn, ReqsApart, Conserved, Members, Unclaimed;
    DropUnclaimed(desc, ops, reqs, h);
    DropConserved(desc, ops, free, reqs, h);
  }

  lemma DropUnclaimed(desc: seq<Desc>, ops: seq<BlkReq>, reqs: Requests, h: nat)
    requires Chains(desc, ops, reqs) && h in reqs
    ensures Unclaimed(reqs - {h}, Members(h, reqs[h]))
  {
    hide ChainIn;
    forall i, g | i in Members(h, reqs[h]) && g in reqs && g != h ensures !InChain(g, reqs[g], i) {
      assert ChainIn(desc, ops, h, reqs[h]);
      ChainMembers(desc, ops, h, reqs[h], i);
      assert ReqsApart(g, reqs[g], h, reqs[h]);
    }
  }

  lemma ChainMembers(desc: seq<Desc>, ops: seq<BlkReq>, h: nat, r: Req, i: nat)
    requires ChainIn(desc, ops, h, r)
    ensures i in Members(h, r) <==> InChain(h, r, i)
    ensures i in Members(h, r) ==> i < NUM
  {
  }

  lemma DropConserved(desc: seq<Desc>, ops: seq<BlkReq>, free: seq<bool>, reqs: Requests, h: nat)
    requires Chains(desc, ops, reqs) && Conserved(free, reqs, {}) && h in reqs
    ensures Conserved(free, reqs - {h}, Members(h, reqs[h]))
  {
    hide ChainIn, ReqsApart, InChain, Members;
    var reqs' := reqs - {h};
    forall i | i in Members(h, reqs[h]) ensures i < NUM && !free[i] { ChainMembers(desc, ops, h, reqs[h], i); }
    forall i: nat | i < NUM
      ensures free[i] <==> i !in Members(h, reqs[h]) && forall g <- reqs' :: !InChain(g, reqs'[g], i)
    {
      ChainMembers(desc, ops, h, reqs[h], i);
      if !free[i] && i !in Members(h, reqs[h]) {
        var g :| g in reqs && InChain(g, reqs[g], i);
        assert g in reqs' && InChain(g, reqs'[g], i);
      }
    }
  }

  /** One descriptor changes hands; chains do not notice. */
  lemma ChainsKept(desc: seq<Desc>, ops: seq<BlkReq>, reqs: Requests, mine: set<nat>, i: nat, d: Desc)
    requires Chains(desc, ops, reqs) && Unclaimed(reqs, mine) && i in mine && i < NUM
    ensures Chains(desc[i := d], ops, reqs)
  {
    forall h | h in reqs ensures ChainIn(desc[i := d], ops, h, reqs[h]) {
      assert ChainIn(desc, ops, h, reqs[h]) && !InChain(h, reqs[h], i);
    }
  }

  lemma TakeFree(free: seq<bool>, reqs: Requests, mine: set<nat>, i: nat)
    requires Conserved(free, reqs, mine) && Unclaimed(reqs, mine) && i < NUM && free[i]
    ensures i !in mine && Conserved(free[i := false], reqs, mine + {i}) && Unclaimed(reqs, mine + {i})
  {
  }

  lemma GiveFree(free: seq<bool>, reqs: Requests, mine: set<nat>, i: nat)
    requires Conserved(free, reqs, mine) && Unclaimed(reqs, mine) && i in mine
    ensures i < NUM && !free[i] && Conserved(free[i := true], reqs, mine - {i}) && Unclaimed(reqs, mine - {i})
  {
    forall j: nat | j < NUM
      ensures free[i := true][j] <==> j !in mine - {i} && forall h <- reqs :: !InChain(h, reqs[h], j)
    {
      if j == i { forall h | h in reqs ensures !InChain(h, reqs[h], j) { } }
    }
  }

  /** A request moves on to another phase. */
  function Moved(reqs: Requests, h: nat, phase: Phase): Requests
    requires h in reqs
  {
    reqs[h := reqs[h].(phase := phase)]
  }

  lemma MovedChains(desc: seq<Desc>, ops: seq<BlkReq>, free: seq<bool>, reqs: Requests, mine: set<nat>, h: nat,
                    phase: Phase)
    requires Chains(desc, ops, reqs) && Conserved(free, reqs, mine) && Unclaimed(reqs, mine) && h in reqs
    ensures Chains(desc, ops, Moved(reqs, h, phase)) && Conserved(free, Moved(reqs, h, phase), mine)
    ensures Unclaimed(Moved(reqs, h, phase), mine)
  {
    var r := Moved(reqs, h, phase);
    assert r.Keys == reqs.Keys;
    assert forall g, i :: g in reqs ==> (InChain(g, r[g], i) <==> InChain(g, reqs[g], i));
    forall g | g in r ensures ChainIn(desc, ops, g, r[g]) { assert ChainIn(desc, ops, g, reqs[g]); }
    forall g, k | g in r && k in r ensures ReqsApart(g, r[g], k, r[k]) { assert ReqsApart(g, reqs[g], k, reqs[k]); }
    forall i: nat | i < NUM ensures free[i] <==> i !in mine && forall g <- r :: !InChain(g, r[g], i) {
      if forall g <- reqs :: !InChain(g, reqs[g], i) {
        forall g | g in r ensures !InChain(g, r[g], i) { assert !InChain(g, reqs[g], i); }
      }
      else { var g :| g in reqs && InChain(g, reqs[g], i); assert InChain(g, r[g], i); }
    }
    forall i, g | i in mine && g in r ensures !InChain(g, r[g], i) { assert !InChain(g, reqs[g], i); }
  }

  // ---- how many requests there can be ----

  ghost function Claimed(reqs: Requests): set<nat> {
    set h, i | h in reqs && i in Members(h, reqs[h]) :: i
  }

  lemma {:induction false} ClaimedCount(desc: seq<Desc>, ops: seq<BlkReq>, reqs: Requests)
    requires Chains(desc, ops, reqs)
    ensures |Claimed(reqs)| == 3 * |reqs| && forall i <- Claimed(reqs) :: i < NUM
    decreases |reqs|
  {
    if reqs == map[] {
      assert Claimed(reqs) == {};
    } else {
      var h :| h in reqs;
      var rest := reqs - {h};
      LessChains(desc, ops, reqs, h);
      CountDrop(reqs, h);
      ClaimedCount(desc, ops, rest);
      ClaimedLess(desc, ops, reqs, h);
    }
  }

  lemma CountDrop(reqs: Requests, h: nat)
    requires h in reqs
    ensures |reqs - {h}| == |reqs| - 1
  {
    assert (reqs - {h}).Keys == reqs.Keys - {h};
  }

  lemma LessChains(desc: seq<Desc>, ops: seq<BlkReq>, reqs: Requests, h: nat)
    requires Chains(desc, ops, reqs)
    ensures Chains(desc, ops, reqs - {h})
  {
    hide ChainIn, ReqsApart;
  }

  lemma ClaimedUnion(reqs: Requests, h: nat)
    requires h in reqs
    ensures Claimed(reqs) == Claimed(reqs - {h}) + Members(h, reqs[h])
  {
    hide Members;
    var rest, m := reqs - {h}, Members(h, reqs[h]);
    forall i | i in Claimed(reqs) ensures i in Claimed(rest) + m {
      var g :| g in reqs && i in Members(g, reqs[g]);
      if g != h { assert g in rest && i in Members(g, rest[g]); }
    }
    forall i | i in Claimed(rest) ensures i in Claimed(reqs) {
      var g :| g in rest && i in Members(g, rest[g]);
      assert g in reqs && i in Members(g, reqs[g]);
    }
  }

  lemma MembersCount(desc: seq<Desc>, ops: seq<BlkReq>, h: nat, r: Req)
    requires ChainIn(desc, ops, h, r)
    ensures |Members(h, r)| == 3 && forall i <- Members(h, r) :: i < NUM
  {
  }

  lemma ClaimedLess(desc: seq<Desc>, ops: seq<BlkReq>, reqs: Requests, h: nat)
    requires Chains(desc, ops, reqs) && h in reqs && forall i <- Claimed(reqs - {h}) :: i < NUM
    ensures |Claimed(reqs)| == |Claimed(reqs - {h})| + 3 && forall i <- Claimed(reqs) :: i < NUM
  {
    hide ChainIn, ReqsApart, Members, Claimed, InChain;
    var rest, m := reqs - {h}, Members(h, reqs[h]);
    MembersCount(desc, ops, h, reqs[h]);
    DropUnclaimed(desc, ops, reqs, h);
    ClaimedUnion(reqs, h);
    UnclaimedApart(rest, m);
    assert |Claimed(rest) + m| == |Claimed(rest)| + |m|;
  }

  lemma UnclaimedApart(reqs: Requests, m: set<nat>)
    requires Unclaimed(reqs, m)
    ensures Claimed(reqs) !! m
  {
    forall i | i in m ensures i !in Claimed(reqs) {
      forall g | g in reqs ensures i !in Members(g, reqs[g]) { assert !InChain(g, reqs[g], i); }
    }
  }

  predicate FewerThanThree(free: seq<bool>) {
    |free| == NUM && forall i: nat, j: nat, k: nat :: i < j < k < NUM ==> !(free[i] && free[j] && free[k])
  }

  /** Eight descriptors are enough for two requests at a time, and no more. */
  lemma TwoAtMost(desc: seq<Desc>, ops: seq<BlkReq>, free: seq<bool>, reqs: Requests)
    requires Chains(desc, ops, reqs) && Conserved(free, reqs, {})
    ensures |reqs| <= 2 && (FewerThanThree(free) <==> |reqs| == 2)
  {
    var open := set i: nat | i < NUM && free[i];
    OpenIs(free, reqs, open);
    ClaimedCount(desc, ops, reqs);
    FewIff(free, open);
    hide Chains, Conserved, Claimed, FewerThanThree;
    OpenCount(open, Claimed(reqs));
  }

  lemma OpenCount(open: set<nat>, claimed: set<nat>)
    requires forall i: nat :: i < NUM ==> (i in open <==> i !in claimed)
    requires forall i <- open + claimed :: i < NUM
    ensures |open| + |claimed| == NUM
  {
    var all: set<nat> := {0, 1, 2, 3, 4, 5, 6, 7};
    assert open !! claimed && open + claimed == all;
    assert |open + claimed| == |open| + |claimed|;
  }

  lemma OpenIs(free: seq<bool>, reqs: Requests, open: set<nat>)
    requires Conserved(free, reqs, {}) && open == set i: nat | i < NUM && free[i]
    ensures |free| == NUM
    ensures forall i: nat :: i < NUM ==> (i in open <==> i !in Claimed(reqs))
  {
    forall i: nat | i < NUM ensures i in open <==> i !in Claimed(reqs) {
      if free[i] {
        forall h | h in reqs ensures i !in Members(h, reqs[h]) { assert !InChain(h, reqs[h], i); }
      } else {
        var h :| h in reqs && InChain(h, reqs[h], i);
        assert i in Members(h, reqs[h]);
      }
    }
  }

  lemma FewIff(free: seq<bool>, open: set<nat>)
    requires |free| == NUM && open == set i: nat | i < NUM && free[i]
    ensures FewerThanThree(free) <==> |open| <= 2
  {
    if !FewerThanThree(free) {
      var i: nat, j: nat, k: nat :| i < j < k < NUM && free[i] && free[j] && free[k];
      SubsetCount({i, j, k}, open);
    } else if |open| > 2 {
      ThreeOf(open);
    }
  }

  lemma ThreeOf(open: set<nat>)
    requires |open| > 2
    ensures exists i, j, k :: i in open && j in open && k in open && i < j < k
  {
    var a :| a in open;
    assert |open - {a}| == |open| - 1;
    var b :| b in open - {a};
    assert |open - {a} - {b}| == |open| - 2;
    var c :| c in open - {a} - {b};
    Ordered(a, b, c, open);
  }

  lemma Ordered(a: nat, b: nat, c: nat, s: set<nat>)
    requires {a, b, c} <= s && a != b && b != c && a != c
    ensures exists i, j, k :: i in s && j in s && k in s && i < j < k
  {
    if a < b {
      if b < c { assert a < b < c; } else if a < c { assert a < c < b; } else { assert c < a < b; }
    } else {
      if a < c { assert b < a < c; } else if b < c { assert b < c < a; } else { assert c < b < a; }
    }
  }
}
