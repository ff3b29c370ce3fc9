/**
The driver of kernel/virtio_disk.c and the device it talks to. Each method of the driver is a stretch that
runs under vdisk_lock (virtio_disk_rw gives the lock up only while it sleeps: before it has descriptors,
and until its request is done). The lock does not hold up the device: Device stands wherever the driver
has read or written something they share, and does any number of things the device can do, finishing
requests in any order. Run puts calls of the driver together.
*/
module Virtio {
  import opened Sequences
  import opened Wrappers
  import opened VirtioQueue
  import opened VirtioRun

  // ---- lists of requests by phase ----

  lemma ListsAdd(q: seq<nat>, reqs: Requests, h: nat, r: Req, phase: Phase)
    requires Lists(q, reqs, phase) && h !in reqs
    ensures h !in q && Lists(if r.phase == phase then q + [h] else q, reqs[h := r], phase)
  {
  }

  lemma ListsLeave(q: seq<nat>, reqs: Requests, phase: Phase, next: Phase)
    requires Lists(q, reqs, phase) && q != [] && next != phase
    ensures q[0] in reqs && reqs[q[0]].phase == phase && Lists(q[1..], Moved(reqs, q[0], next), phase)
  {
    assert forall h :: h in q <==> h == q[0] || h in q[1..];
    forall i | 1 <= i < |q| ensures q[i] != q[0] { }
  }

  lemma ListsInRange(desc: seq<Desc>, ops: seq<BlkReq>, reqs: Requests, q: seq<nat>, phase: Phase)
    requires Chains(desc, ops, reqs) && Lists(q, reqs, phase)
    ensures Distinct(q) && forall i :: 0 <= i < |q| ==> q[i] < NUM && q[i] in reqs
  {
    hide ChainIn;
    HeadsInRange(desc, ops, reqs);
    forall i | 0 <= i < |q| ensures q[i] < NUM && q[i] in reqs { assert q[i] in q; }
  }

  lemma ListsJoin(q: seq<nat>, reqs: Requests, h: nat, phase: Phase)
    requires Lists(q, reqs, phase) && h in reqs && reqs[h].phase != phase
    ensures h !in q && Lists(q + [h], Moved(reqs, h, phase), phase)
  {
  }

  lemma ListsPass(q: seq<nat>, reqs: Requests, h: nat, next: Phase, phase: Phase)
    requires Lists(q, reqs, phase) && h in reqs && reqs[h].phase != phase && next != phase
    ensures Lists(q, Moved(reqs, h, next), phase)
  {
  }

  lemma ListsDrop(q: seq<nat>, reqs: Requests, h: nat, phase: Phase)
    requires Lists(q, reqs, phase) && h in reqs && reqs[h].phase != phase
    ensures Lists(q, reqs - {h}, phase)
  {
  }

  // ---- what is known of a request ----

  lemma InfosAdd(info: seq<Info>, busy: set<BufId>, reqs: Requests, h: nat, r: Req)
    requires Infos(info, busy, reqs) && h !in reqs && h < NUM && r.phase.Ready?
    requires forall g <- reqs :: reqs[g].buf != r.buf
    ensures Infos(info[h := Info(Some(r.buf), 0xff)], busy + {r.buf}, reqs[h := r])
  {
    var reqs' := reqs[h := r];
    forall b | b in busy + {r.buf} ensures exists g :: g in reqs' && reqs'[g].buf == b {
      if b == r.buf { assert reqs'[h].buf == b; }
      else { var g :| g in reqs && reqs[g].buf == b; assert reqs'[g].buf == b; }
    }
  }

  lemma InfosMove(info: seq<Info>, info': seq<Info>, busy: set<BufId>, busy': set<BufId>, reqs: Requests, h: nat,
                  next: Phase)
    requires Infos(info, busy, reqs) && h in reqs && h < |info|
    requires forall g, k :: g in reqs && k in reqs && g != k ==> reqs[g].buf != reqs[k].buf
    requires info' == if next.Used? then info[h := info[h].(status := 0)] else info
    requires busy' == if next.Cleared? then busy - {reqs[h].buf} else busy
    requires reqs[h].phase.Cleared? ==> next.Cleared?
    ensures Infos(info', busy', Moved(reqs, h, next))
  {
    var reqs' := Moved(reqs, h, next);
    forall b | b in busy' ensures exists g :: g in reqs' && reqs'[g].buf == b {
      var g :| g in reqs && reqs[g].buf == b;
      assert reqs'[g].buf == b;
    }
  }

  lemma InfosDrop(info: seq<Info>, busy: set<BufId>, reqs: Requests, h: nat)
    requires Infos(info, busy, reqs) && h in reqs && reqs[h].phase.Cleared?
    requires forall g, k :: g in reqs && k in reqs && g != k ==> reqs[g].buf != reqs[k].buf
    ensures Infos(info[h := info[h].(b := None)], busy, reqs - {h})
  {
    forall b | b in busy ensures exists g :: g in (reqs - {h}) && (reqs - {h})[g].buf == b {
      var g :| g in reqs && reqs[g].buf == b;
      assert g in reqs - {h};
    }
  }

  lemma BufsApart(desc: seq<Desc>, ops: seq<BlkReq>, reqs: Requests)
    requires Chains(desc, ops, reqs)
    ensures forall g, k :: g in reqs && k in reqs && g != k ==> reqs[g].buf != reqs[k].buf
  {
    forall g, k | g in reqs && k in reqs && g != k ensures reqs[g].buf != reqs[k].buf {
      assert ReqsApart(g, reqs[g], k, reqs[k]);
    }
  }

  lemma HeadsInRange(desc: seq<Desc>, ops: seq<BlkReq>, reqs: Requests)
    requires Chains(desc, ops, reqs)
    ensures forall h <- reqs :: h < NUM
  {
    forall h | h in reqs ensures h < NUM { assert ChainIn(desc, ops, h, reqs[h]); }
  }

  /** Every request is for a buffer that exists and a block on the disk. */
  ghost predicate Stored(platter: seq<Block>, data: map<BufId, Block>, reqs: Requests) {
    |platter| <= 0x8000_0000 && forall h <- reqs :: reqs[h].buf in data && reqs[h].blockno < |platter|
  }

  lemma SubmitKeeps(desc: seq<Desc>, ops: seq<BlkReq>, desc': seq<Desc>, ops': seq<BlkReq>, free: seq<bool>,
                    info: seq<Info>, busy: set<BufId>, reqs: Requests, h: nat, r: Req)
    requires Chains(desc, ops, reqs) && Conserved(free, reqs, {h, r.i1, r.i2}) && Unclaimed(reqs, {h, r.i1, r.i2})
    requires Infos(info, busy, reqs) && ChainIn(desc', ops', h, r) && r.phase.Ready?
    requires forall g <- reqs :: reqs[g].buf != r.buf
    requires forall i :: 0 <= i < NUM && i != h && i != r.i1 && i != r.i2 ==> desc'[i] == desc[i] && ops'[i] == ops[i]
    ensures h < |info| && h !in reqs
    ensures Chains(desc', ops', reqs[h := r]) && Conserved(free, reqs[h := r], {}) && Unclaimed(reqs[h := r], {})
    ensures Infos(info[h := Info(Some(r.buf), 0xff)], busy + {r.buf}, reqs[h := r])
  {
    assert Members(h, r) == {h, r.i1, r.i2};
    AddChain(desc, ops, desc', ops', reqs, h, r);
    hide Chains, Unclaimed, Infos, Conserved;
    AddConserved(free, reqs, h, r);
    assert h < NUM;
    InfosAdd(info, busy, reqs, h, r);
    InfosLength(info, busy, reqs);
  }

  lemma BlankKept(free: seq<bool>, desc: seq<Desc>, desc': seq<Desc>, reqs: Requests, mine: set<nat>)
    requires Blank(free, desc) && Conserved(free, reqs, mine) && |desc'| == NUM
    requires forall i :: 0 <= i < NUM && i !in mine ==> desc'[i] == desc[i]
    ensures Blank(free, desc')
  {
  }

  lemma BlankFreed(free: seq<bool>, desc: seq<Desc>, i: nat)
    requires Blank(free, desc) && i < NUM
    ensures Blank(free[i := true], desc[i := NO_DESC])
  {
  }

  lemma BlankTaken(free: seq<bool>, desc: seq<Desc>, i: nat)
    requires Blank(free, desc) && i < NUM && free[i]
    ensures Blank(free[i := false], desc) && desc[i] == NO_DESC
  {
  }

  lemma QueueLength(ring: seq<nat>, lo: nat, hi: nat, q: seq<nat>)
    requires Queue(ring, lo, hi, q)
    ensures |ring| == NUM && lo < U16 && hi < U16
  {
  }

  lemma StoredMove(p: seq<Block>, d: map<BufId, Block>, rs: Requests, h: nat, next: Phase)
    requires Stored(p, d, rs) && h in rs
    ensures Stored(p, d, Moved(rs, h, next))
  {
  }

  lemma StoredKeep(p: seq<Block>, p': seq<Block>, d: map<BufId, Block>, d': map<BufId, Block>, rs: Requests)
    requires Stored(p, d, rs) && |p'| == |p| && d.Keys <= d'.Keys
    ensures Stored(p', d', rs)
  {
  }

  lemma StoredDrop(p: seq<Block>, d: map<BufId, Block>, rs: Requests, h: nat)
    requires Stored(p, d, rs)
    ensures Stored(p, d, rs - {h})
  {
  }

  /** The sector in the request header is the block asked for. */
  // ---- the disk, as the device sees it: bytes ----

  /** VIRTIO_BLK_S_OK, or VIRTIO_BLK_S_IOERR */
  function StatusOf(fine: bool): nat {
    if fine then 0 else 1
  }

  /** n bytes of the disk from byte at on; 0 past its end. */
  function BytesAt(p: seq<Block>, at: nat, n: nat): (r: seq<nat>)
    ensures |r| == n
  {
    seq(n, i requires 0 <= i < n => if (at + i) / BSIZE < |p| then p[(at + i) / BSIZE][(at + i) % BSIZE] else 0)
  }

  /** The disk with the bytes x from byte at on. */
  function WithBytes(p: seq<Block>, at: nat, x: seq<nat>): (r: seq<Block>)
    ensures |r| == |p|
  {
    seq(|p|, j requires 0 <= j < |p| =>
      seq(BSIZE, k requires 0 <= k < BSIZE =>
        if at <= j * BSIZE + k < at + |x| then x[j * BSIZE + k - at] else p[j][k]))
  }

  /** The bytes at the sector of a block are that block, */
  lemma BlockRead(p: seq<Block>, blockno: nat)
    requires blockno < |p|
    ensures BytesAt(p, blockno * BSIZE, BSIZE) == p[blockno]
  {
    var r := BytesAt(p, blockno * BSIZE, BSIZE);
    forall i | 0 <= i < BSIZE ensures r[i] == p[blockno][i] {
      assert (blockno * BSIZE + i) / BSIZE == blockno && (blockno * BSIZE + i) % BSIZE == i;
    }
  }

  /** also when they are written. */
  lemma BlockWritten(p: seq<Block>, blockno: nat, x: Block)
    requires blockno < |p|
    ensures WithBytes(p, blockno * BSIZE, x) == p[blockno := x]
  {
    var r := WithBytes(p, blockno * BSIZE, x);
    forall j | 0 <= j < |p| ensures r[j] == p[blockno := x][j] {
      forall k | 0 <= k < BSIZE ensures r[j][k] == p[blockno := x][j][k] { InBlock(j, k, blockno); }
    }
  }

  lemma InBlock(j: nat, k: nat, b: nat)
    requires k < BSIZE
    ensures b * BSIZE <= j * BSIZE + k < b * BSIZE + BSIZE <==> j == b
  {
  }

  /** The sector asked for is where the block begins. */
  lemma SectorBytes(b: nat)
    requires b < 0x8000_0000
    ensures Sector(b) * SECTOR == b * BSIZE
  {
  }

  lemma SectorIs(p: seq<Block>, d: map<BufId, Block>, rs: Requests, h: nat)
    requires Stored(p, d, rs) && h in rs
    ensures rs[h].buf in d && rs[h].blockno < |p| && Sector(rs[h].blockno) * SECTOR == rs[h].blockno * BSIZE
  {
    SectorBytes(rs[h].blockno);
  }

  lemma ChainOf(desc: seq<Desc>, ops: seq<BlkReq>, reqs: Requests, h: nat)
    requires Chains(desc, ops, reqs) && h in reqs
    ensures ChainIn(desc, ops, h, reqs[h])
  {
  }

  /** What free_chain follows. */
  predicate Links(desc: seq<Desc>, h: nat, r: Req) {
    && |desc| == NUM && h < NUM && r.i1 < NUM && r.i2 < NUM
    && desc[h].more && desc[h].next == r.i1 && desc[r.i1].more && desc[r.i1].next == r.i2 && !desc[r.i2].more
  }

  lemma ChainLinks(desc: seq<Desc>, ops: seq<BlkReq>, reqs: Requests, h: nat)
    requires Chains(desc, ops, reqs) && h in reqs
    ensures Links(desc, h, reqs[h]) && h != reqs[h].i1 && h != reqs[h].i2 && reqs[h].i1 != reqs[h].i2
  {
    assert ChainIn(desc, ops, h, reqs[h]);
  }

  lemma InfoOf(info: seq<Info>, busy: set<BufId>, reqs: Requests, h: nat)
    requires Infos(info, busy, reqs) && h in reqs
    ensures h < |info| && info[h].b == Some(reqs[h].buf) && (reqs[h].phase.Used? ==> info[h].status == 0)
  {
  }

  // ---- what the device may do meanwhile ----

  /** Requests offered to the device may have got further, but not past the driver. */
  ghost predicate Progressed(was: Requests, now: Requests) {
    && now.Keys == was.Keys
    && forall h <- was ::
         && now[h] == was[h].(phase := now[h].phase)
         && (now[h].phase.Ready? <==> was[h].phase.Ready?) && (now[h].phase.Cleared? <==> was[h].phase.Cleared?)
         && (was[h].phase.Used? ==> now[h].phase.Used?)
  }

  lemma NoProgress(reqs: Requests)
    ensures Progressed(reqs, reqs)
  {
  }

  lemma MoreProgress(was: Requests, now: Requests, h: nat, next: Phase)
    requires Progressed(was, now) && h in now && !now[h].phase.Ready? && !now[h].phase.Cleared?
    requires (next.Taken? && now[h].phase.Offered?) || next.Used?
    ensures Progressed(was, Moved(now, h, next))
  {
  }

  lemma ProgressJoin(a: Requests, b: Requests, c: Requests)
    requires Progressed(a, b) && Progressed(b, c)
    ensures Progressed(a, c)
  {
    forall h | h in a ensures c[h] == a[h].(phase := c[h].phase) { assert h in b.Keys; }
  }

  lemma ProgressOne(was: Requests, now: Requests, h: nat)
    requires Progressed(was, now) && h in was
    ensures h in now && now[h] == was[h].(phase := now[h].phase)
    ensures was[h].phase.Ready? ==> now[h].phase.Ready?
    ensures was[h].phase.Cleared? ==> now[h].phase.Cleared?
  {
  }

  lemma ProgressApart(was: Requests, now: Requests, h: nat, b: BufId)
    requires Progressed(was, now)
    ensures h in was <==> h in now
    ensures (forall g <- was :: was[g].buf != b) ==> forall g <- now :: now[g].buf != b
  {
    forall g | g in now ensures g in was && now[g].buf == was[g].buf { assert g in was.Keys; }
  }

  /** Between w, with events before, and w', with events after, only the device did something. */
  ghost predicate OnlyDevice(w: World, before: seq<Event>, w': World, after: seq<Event>) {
    && Progressed(w.reqs, w'.reqs) && w'.busy == w.busy
    && w'.data.Keys == w.data.Keys && |w'.platter| == |w.platter|
    && before <= after && Driver(after) == Driver(before)
  }

  lemma NobodyDid(w: World, events: seq<Event>)
    ensures OnlyDevice(w, events, w, events)
  {
  }

  lemma DeviceJoin(w0: World, e0: seq<Event>, w1: World, e1: seq<Event>, w2: World, e2: seq<Event>)
    requires OnlyDevice(w0, e0, w1, e1) && OnlyDevice(w1, e1, w2, e2)
    ensures OnlyDevice(w0, e0, w2, e2)
  {
    hide Progressed, Driver;
    ProgressJoin(w0.reqs, w1.reqs, w2.reqs);
  }

  lemma DeviceFetched(w0: World, e0: seq<Event>, w1: World, e1: seq<Event>, w2: World, e2: seq<Event>, h: nat)
    requires OnlyDevice(w0, e0, w1, e1) && h in w1.reqs && w1.reqs[h].phase.Offered?
    requires w2 == w1.(reqs := Moved(w1.reqs, h, Taken)) && e1 <= e2 && Driver(e2) == Driver(e1)
    ensures OnlyDevice(w0, e0, w2, e2)
  {
    hide Driver;
    MoreProgress(w0.reqs, w1.reqs, h, Taken);
  }

  lemma DeviceCarried(w0: World, e0: seq<Event>, w1: World, e1: seq<Event>, w2: World, e2: seq<Event>, h: nat)
    requires OnlyDevice(w0, e0, w1, e1) && h in w1.reqs && w1.reqs[h].phase.Taken?
    requires w1.reqs[h].buf in w1.data && w1.reqs[h].blockno < |w1.platter|
    requires w2 == Transferred(w1, w1.reqs[h]).(reqs := Moved(w1.reqs, h, Used)) && e1 <= e2 && Driver(e2) == Driver(e1)
    ensures OnlyDevice(w0, e0, w2, e2)
  {
    hide Driver;
    MoreProgress(w0.reqs, w1.reqs, h, Used);
  }

  ghost predicate TakenAre(taken: set<nat>, reqs: Requests) {
    forall h :: h in taken <==> h in reqs && reqs[h].phase.Taken?
  }

  lemma TakenMoved(taken: set<nat>, reqs: Requests, h: nat, next: Phase)
    requires TakenAre(taken, reqs) && h in reqs
    ensures TakenAre(if next.Taken? then taken + {h} else taken - {h}, Moved(reqs, h, next))
  {
  }

  lemma TakenOther(taken: set<nat>, reqs: Requests, h: nat, next: Phase)
    requires TakenAre(taken, reqs) && h in reqs && !reqs[h].phase.Taken? && !next.Taken?
    ensures TakenAre(taken, Moved(reqs, h, next))
  {
  }

  lemma TakenIs(taken: set<nat>, reqs: Requests, h: nat)
    requires TakenAre(taken, reqs) && h in taken
    ensures h in reqs && reqs[h].phase.Taken?
  {
  }

  // ---- the loop of virtio_disk_intr ----

  /** What virtio_disk_intr still may have to do. */
  ghost function Pending(reqs: Requests): set<nat> {
    set h | h in reqs && !reqs[h].phase.Cleared?
  }

  ghost function Settles(seen: seq<nat>): seq<Event> {
    seq(|seen|, i requires 0 <= i < |seen| => Settle(seen[i]))
  }

  lemma SettlesMore(seen: seq<nat>, h: nat)
    ensures Settles(seen + [h]) == Settles(seen) + [Settle(h)]
  {
  }

  /** The requests of seen are now cleared, with their buffers. */
  ghost predicate SomeCleared(was: Requests, now: Requests, busyWas: set<BufId>, busyNow: set<BufId>, seen: seq<nat>) {
    && now.Keys == was.Keys
    && (forall h <- seen :: h in was && !was[h].phase.Cleared? && now[h].phase.Cleared?)
    && (forall h <- was :: now[h] == was[h].(phase := now[h].phase))
    && (forall h <- was :: h !in seen ==> (now[h].phase.Cleared? <==> was[h].phase.Cleared?))
    && (forall h <- was :: h !in seen && was[h].phase.Used? ==> now[h].phase.Used?)
    && (forall b :: b in busyNow <==> b in busyWas && !Among(was, seen, b))
  }

  ghost predicate Among(reqs: Requests, seen: seq<nat>, b: BufId) {
    exists h :: h in seen && h in reqs && reqs[h].buf == b
  }

  lemma NoneCleared(was: Requests, now: Requests, busy: set<BufId>)
    requires Progressed(was, now)
    ensures SomeCleared(was, now, busy, busy, [])
  {
  }

  lemma ClearedProgress(was: Requests, now: Requests, next: Requests, busyWas: set<BufId>, busyNow: set<BufId>,
                        seen: seq<nat>)
    requires SomeCleared(was, now, busyWas, busyNow, seen) && Progressed(now, next)
    ensures SomeCleared(was, next, busyWas, busyNow, seen) && Pending(next) == Pending(now)
  {
    hide Among;
    forall h | h in was ensures h in now && h in next { assert h in now.Keys; }
    forall h ensures h in Pending(next) <==> h in Pending(now) { assert h in next.Keys <==> h in now.Keys; }
  }

  lemma OneMoreCleared(was: Requests, now: Requests, busyWas: set<BufId>, busyNow: set<BufId>, seen: seq<nat>, h: nat)
    requires SomeCleared(was, now, busyWas, busyNow, seen) && h in now && now[h].phase.Used?
    ensures h !in seen && Pending(Moved(now, h, Cleared)) < Pending(now)
    ensures SomeCleared(was, Moved(now, h, Cleared), busyWas, busyNow - {now[h].buf}, seen + [h])
  {
    var now' := Moved(now, h, Cleared);
    assert h in Pending(now) && h !in Pending(now');
    assert h in was.Keys && now[h].buf == was[h].buf;
    forall b ensures Among(was, seen + [h], b) <==> Among(was, seen, b) || b == was[h].buf {
      if Among(was, seen, b) {
        var g :| g in seen && g in was && was[g].buf == b;
        assert g in seen + [h];
      }
      if b == was[h].buf { assert h in seen + [h]; }
    }
    hide Among;
  }

  lemma AllCleared(was: Requests, now: Requests, busyWas: set<BufId>, busyNow: set<BufId>, seen: seq<nat>,
                   done: seq<nat>, used: seq<nat>, lo: nat, hi: nat)
    requires SomeCleared(was, now, busyWas, busyNow, seen)
    requires Lists(done, now, Used) && Queue(used, lo, hi, done) && lo == hi
    ensures forall h <- now :: !now[h].phase.Used?
    ensures forall h <- was :: was[h].phase.Used? ==> h in seen
  {
    EmptyIff(used, lo, hi, done);
    forall h | h in now ensures !now[h].phase.Used? { assert h !in done; }
    forall h | h in was && was[h].phase.Used? ensures h in seen { assert h in now.Keys; }
  }

  lemma InfosLength(i: seq<Info>, b: set<BufId>, r: Requests)
    requires Infos(i, b, r)
    ensures |i| == NUM
  {
  }

  // ---- the loop of alloc3_desc ----

  ghost predicate Zeroed(desc: seq<Desc>, mine: set<nat>) {
    forall d <- mine :: d < |desc| && desc[d] == NO_DESC
  }

  lemma ZeroedNone(desc: seq<Desc>)
    ensures Zeroed(desc, {})
  {
  }

  lemma ZeroedMore(desc: seq<Desc>, mine: set<nat>, d: nat)
    requires Zeroed(desc, mine) && d < |desc| && desc[d] == NO_DESC
    ensures Zeroed(desc, mine + {d})
  {
  }

  lemma ZeroedLess(desc: seq<Desc>, mine: set<nat>, d: nat)
    requires Zeroed(desc, mine) && d in mine
    ensures d < |desc| && Zeroed(desc, mine - {d}) && desc[d := NO_DESC] == desc
  {
  }

  /** free is was without the descriptors of idx, which are distinct and those of mine. */
  ghost predicate Held(was: seq<bool>, free: seq<bool>, idx: seq<nat>, mine: set<nat>) {
    && |was| == |free| == NUM && Distinct(idx)
    && (forall d :: d in idx <==> d in mine)
    && (forall d <- mine :: d < NUM && was[d])
    && (forall d: nat :: d < NUM ==> free[d] == (was[d] && d !in mine))
  }

  lemma HeldMore(was: seq<bool>, free: seq<bool>, idx: seq<nat>, mine: set<nat>, d: nat)
    requires Held(was, free, idx, mine) && d < NUM && free[d]
    ensures Held(was, free[d := false], idx + [d], mine + {d})
  {
  }

  lemma HeldFirst(was: seq<bool>, free: seq<bool>, idx: seq<nat>, mine: set<nat>)
    requires Held(was, free, idx, mine) && idx != []
    ensures idx[0] in mine && idx[0] < NUM && Held(was, free[idx[0] := true], idx[1..], mine - {idx[0]})
  {
    forall d ensures d in idx[1..] <==> d in mine - {idx[0]} {
      assert d in idx <==> d == idx[0] || d in idx[1..];
      if d in idx[1..] { assert idx[0] != d; }
    }
  }

  lemma HeldNone(was: seq<bool>, free: seq<bool>, idx: seq<nat>, mine: set<nat>)
    requires Held(was, free, idx, mine) && idx == []
    ensures free == was && mine == {}
  {
    forall d ensures d !in mine { assert d in idx <==> d in mine; }
  }

  lemma HeldThree(was: seq<bool>, free: seq<bool>, idx: seq<nat>, mine: set<nat>)
    requires Held(was, free, idx, mine) && |idx| == 3
    ensures !FewerThanThree(was)
    ensures mine == {idx[0], idx[1], idx[2]} && idx[0] != idx[1] && idx[0] != idx[2] && idx[1] != idx[2]
    ensures forall i :: 0 <= i < 3 ==> idx[i] < NUM && was[idx[i]]
    ensures free == was[idx[0] := false][idx[1] := false][idx[2] := false]
  {
    assert forall i :: 0 <= i < 3 ==> idx[i] in mine;
    forall d ensures d in mine <==> d in {idx[0], idx[1], idx[2]} { assert d in idx <==> d in mine; }
    NotFew(was, idx[0], idx[1], idx[2]);
  }

  lemma NotFew(free: seq<bool>, a: nat, b: nat, c: nat)
    requires a < NUM && b < NUM && c < NUM && a != b && a != c && b != c
    requires |free| == NUM && free[a] && free[b] && free[c]
    ensures !FewerThanThree(free)
  {
    Ordered(a, b, c, {a, b, c});
    var i, j, k :| i in {a, b, c} && j in {a, b, c} && k in {a, b, c} && i < j < k;
    assert free[i] && free[j] && free[k];
  }

  lemma NotEnough(was: seq<bool>, free: seq<bool>, idx: seq<nat>, mine: set<nat>)
    requires Held(was, free, idx, mine) && |idx| <= 2 && forall d: nat :: d < NUM ==> !free[d]
    ensures FewerThanThree(was)
  {
    forall i: nat, j: nat, k: nat | i < j < k < NUM ensures !(was[i] && was[j] && was[k]) {
      assert (was[i] ==> i in idx) && (was[j] ==> j in idx) && (was[k] ==> k in idx);
    }
  }

  // ---- the state of the driver and the device ----

  /** Everything but the two rings. */
  ghost predicate States(desc: seq<Desc>, ops: seq<BlkReq>, free: seq<bool>, info: seq<Info>, busy: set<BufId>,
                         reqs: Requests, mine: set<nat>, p: seq<Block>, d: map<BufId, Block>, taken: set<nat>) {
    && Chains(desc, ops, reqs) && Conserved(free, reqs, mine) && Unclaimed(reqs, mine) && Blank(free, desc)
    && Infos(info, busy, reqs) && Stored(p, d, reqs) && TakenAre(taken, reqs)
  }

  ghost predicate Listed(offered: seq<nat>, done: seq<nat>, reqs: Requests) {
    Lists(offered, reqs, Offered) && Lists(done, reqs, Used)
  }

  /** A request moves on, with what goes with that. */
  lemma StatesMove(desc: seq<Desc>, ops: seq<BlkReq>, free: seq<bool>, info: seq<Info>, info': seq<Info>,
                   busy: set<BufId>, busy': set<BufId>, reqs: Requests, mine: set<nat>, p: seq<Block>, p': seq<Block>,
                   d: map<BufId, Block>, d': map<BufId, Block>, taken: set<nat>, taken': set<nat>, h: nat, next: Phase)
    requires States(desc, ops, free, info, busy, reqs, mine, p, d, taken) && h in reqs && h < |info|
    requires info' == if next.Used? then info[h := info[h].(status := 0)] else info
    requires busy' == if next.Cleared? then busy - {reqs[h].buf} else busy
    requires !reqs[h].phase.Cleared? && |p'| == |p| && d'.Keys == d.Keys
    requires taken' == if next.Taken? then taken + {h} else if reqs[h].phase.Taken? then taken - {h} else taken
    ensures States(desc, ops, free, info', busy', Moved(reqs, h, next), mine, p', d', taken')
  {
    hide Chains, Conserved, Unclaimed, Blank, Infos, Stored, TakenAre, Moved;
    MovedChains(desc, ops, free, reqs, mine, h, next);
    BufsApart(desc, ops, reqs);
    InfosMove(info, info', busy, busy', reqs, h, next);
    StoredKeep(p, p', d, d', reqs);
    StoredMove(p', d', reqs, h, next);
    if next.Taken? || reqs[h].phase.Taken? {
      TakenMoved(taken, reqs, h, next);
    } else {
      TakenOther(taken, reqs, h, next);
    }
  }

  /** A request is set up in three descriptors that are in hand. */
  lemma StatesAdd(desc: seq<Desc>, ops: seq<BlkReq>, desc': seq<Desc>, ops': seq<BlkReq>, free: seq<bool>,
                  info: seq<Info>, busy: set<BufId>, reqs: Requests, p: seq<Block>, d: map<BufId, Block>,
                      taken: set<nat>,
                  h: nat, r: Req)
    requires States(desc, ops, free, info, busy, reqs, {h, r.i1, r.i2}, p, d, taken) && |desc'| == NUM
    requires ChainIn(desc', ops', h, r) && r.phase.Ready? && r.buf in d && r.blockno < |p|
    requires forall g <- reqs :: reqs[g].buf != r.buf
    requires forall i :: 0 <= i < NUM && i != h && i != r.i1 && i != r.i2 ==> desc'[i] == desc[i] && ops'[i] == ops[i]
    ensures h < |info| && h !in reqs
    ensures States(desc', ops', free, info[h := Info(Some(r.buf), 0xff)], busy + {r.buf}, reqs[h := r], {}, p, d, taken)
  {
    hide Chains, Conserved, Unclaimed, Blank, Infos, Stored, TakenAre, ChainIn;
    SubmitKeeps(desc, ops, desc', ops', free, info, busy, reqs, h, r);
    BlankKept(free, desc, desc', reqs, {h, r.i1, r.i2});
    StoredAdd(p, d, reqs, h, r);
    TakenAdd(taken, reqs, h, r);
  }

  lemma ListedAdd(offered: seq<nat>, done: seq<nat>, reqs: Requests, h: nat, r: Req)
    requires Listed(offered, done, reqs) && h !in reqs && r.phase.Ready?
    ensures Listed(offered, done, reqs[h := r])
  {
    ListsAdd(offered, reqs, h, r, Offered);
    ListsAdd(done, reqs, h, r, Used);
  }

  /** A request goes, and leaves its descriptors in hand. */
  lemma StatesDrop(desc: seq<Desc>, ops: seq<BlkReq>, free: seq<bool>, info: seq<Info>, busy: set<BufId>,
                   reqs: Requests, p: seq<Block>, d: map<BufId, Block>, taken: set<nat>, h: nat)
    requires States(desc, ops, free, info, busy, reqs, {}, p, d, taken) && h in reqs && reqs[h].phase.Cleared?
    requires h < |info|
    ensures States(desc, ops, free, info[h := info[h].(b := None)], busy, reqs - {h}, Members(h, reqs[h]), p, d, taken)
    ensures Links(desc, h, reqs[h]) && h != reqs[h].i1 && h != reqs[h].i2 && reqs[h].i1 != reqs[h].i2
  {
    hide Chains, Conserved, Unclaimed, Blank, Infos, Stored, TakenAre, Links, Members;
    ChainLinks(desc, ops, reqs, h);
    BufsApart(desc, ops, reqs);
    InfosDrop(info, busy, reqs, h);
    StoredDrop(p, d, reqs, h);
    DropRequest(desc, ops, free, reqs, h);
    TakenDrop(taken, reqs, h);
  }

  lemma ListedDrop(offered: seq<nat>, done: seq<nat>, reqs: Requests, h: nat)
    requires Listed(offered, done, reqs) && h in reqs && reqs[h].phase.Cleared?
    ensures Listed(offered, done, reqs - {h})
  {
    ListsDrop(offered, reqs, h, Offered);
    ListsDrop(done, reqs, h, Used);
  }

  lemma StatesTake(desc: seq<Desc>, ops: seq<BlkReq>, free: seq<bool>, info: seq<Info>, busy: set<BufId>,
                   reqs: Requests, mine: set<nat>, p: seq<Block>, d: map<BufId, Block>, taken: set<nat>, i: nat)
    requires States(desc, ops, free, info, busy, reqs, mine, p, d, taken) && i < |free| == |desc| == NUM && free[i]
    ensures i !in mine && desc[i] == NO_DESC
    ensures States(desc, ops, free[i := false], info, busy, reqs, mine + {i}, p, d, taken)
  {
    hide Chains, Conserved, Unclaimed, Blank, Infos, Stored, TakenAre;
    TakeFree(free, reqs, mine, i);
    BlankTaken(free, desc, i);
  }

  lemma StatesGive(desc: seq<Desc>, ops: seq<BlkReq>, free: seq<bool>, info: seq<Info>, busy: set<BufId>,
                   reqs: Requests, mine: set<nat>, p: seq<Block>, d: map<BufId, Block>, taken: set<nat>, i: nat)
    requires States(desc, ops, free, info, busy, reqs, mine, p, d, taken) && i in mine && |free| == |desc| == NUM
    ensures i < NUM
    ensures States(desc[i := NO_DESC], ops, free[i := true], info, busy, reqs, mine - {i}, p, d, taken)
  {
    hide Chains, Conserved, Unclaimed, Blank, Infos, Stored, TakenAre;
    GiveFree(free, reqs, mine, i);
    ChainsKept(desc, ops, reqs, mine, i, NO_DESC);
    BlankFreed(free, desc, i);
  }

  lemma StatesFill(desc: seq<Desc>, ops: seq<BlkReq>, free: seq<bool>, info: seq<Info>, busy: set<BufId>,
                   reqs: Requests, p: seq<Block>, d: map<BufId, Block>, taken: set<nat>, b: BufId, x: Block)
    requires States(desc, ops, free, info, busy, reqs, {}, p, d, taken) && b in d
    ensures States(desc, ops, free, info, busy, reqs, {}, p, d[b := x], taken)
  {
    hide Chains, Conserved, Unclaimed, Blank, Infos, TakenAre;
  }

  lemma StatesParts(desc: seq<Desc>, ops: seq<BlkReq>, free: seq<bool>, info: seq<Info>, busy: set<BufId>,
                    reqs: Requests, mine: set<nat>, p: seq<Block>, d: map<BufId, Block>, taken: set<nat>)
    requires States(desc, ops, free, info, busy, reqs, mine, p, d, taken)
    ensures Chains(desc, ops, reqs) && Conserved(free, reqs, mine) && Unclaimed(reqs, mine) && Blank(free, desc)
    ensures Infos(info, busy, reqs) && Stored(p, d, reqs) && TakenAre(taken, reqs)
  {
    hide Chains, Conserved, Unclaimed, Blank, Infos, Stored, TakenAre;
  }

  /** The oldest entry of the avail ring is fetched, of the used ring is seen. */
  lemma ListedFetch(offered: seq<nat>, done: seq<nat>, reqs: Requests)
    requires Listed(offered, done, reqs) && offered != []
    ensures offered[0] in reqs && reqs[offered[0]].phase.Offered?
    ensures Listed(offered[1..], done, Moved(reqs, offered[0], Taken))
  {
    hide Lists, Moved;
    ListsLeave(offered, reqs, Offered, Taken);
    ListsPass(done, reqs, offered[0], Taken, Used);
  }

  lemma ListedSee(offered: seq<nat>, done: seq<nat>, reqs: Requests)
    requires Listed(offered, done, reqs) && done != []
    ensures done[0] in reqs && reqs[done[0]].phase.Used?
    ensures Listed(offered, done[1..], Moved(reqs, done[0], Cleared))
  {
    hide Lists, Moved;
    ListsLeave(done, reqs, Used, Cleared);
    ListsPass(offered, reqs, done[0], Cleared, Offered);
  }

  lemma ListedCarry(offered: seq<nat>, done: seq<nat>, reqs: Requests, h: nat)
    requires Listed(offered, done, reqs) && h in reqs && reqs[h].phase.Taken?
    ensures Listed(offered, done + [h], Moved(reqs, h, Used))
  {
    hide Lists, Moved;
    ListsPass(offered, reqs, h, Used, Offered);
    ListsJoin(done, reqs, h, Used);
  }

  lemma ListedOffer(offered: seq<nat>, done: seq<nat>, reqs: Requests, h: nat)
    requires Listed(offered, done, reqs) && h in reqs && reqs[h].phase.Ready?
    ensures Listed(offered + [h], done, Moved(reqs, h, Offered))
  {
    hide Lists, Moved;
    ListsPass(done, reqs, h, Offered, Used);
    ListsJoin(offered, reqs, h, Offered);
  }

  // ---- calls of the driver ----

  datatype Call =
    | Ask(b: BufId, blockno: nat, write: bool)  // virtio_disk_rw, for a buffer locked by its caller
    | Fill(b: BufId, x: Block)                  // the owner of a buffer, outside virtio_disk_rw, changes it
    | Interrupt                                 // virtio_disk_intr
    | Wake(b: BufId)                            // a requester that waits for b wakes up and looks at b->disk

  /**
  What happens in the course of a call, apart from what the device does: a request is set up and offered
  unless two are under way already; the interrupt leaves no finished request behind; and a requester goes
  on just when it finds b->disk clear.
  */
  ghost predicate Did(w: World, call: Call, part: seq<Event>, w': World) {
    match call
    case Ask(b, blockno, write) =>
      if b in w.data && blockno < |w.platter| && !Wanted(w, b) && |w.reqs| < 2
      then exists h, i1, i2 :: Driver(part) == Asking(h, Req(b, blockno, write, i1, i2, Ready))
      else Driver(part) == []
    case Fill(b, x) => Driver(part) == if b in w.data && !Wanted(w, b) then [Edit(b, x)] else []
    case Interrupt => (exists seen :: Driver(part) == Settles(seen)) && forall h <- w'.reqs :: !w'.reqs[h].phase.Used?
    case Wake(b) =>
      if Wanted(w, b) && b !in w.busy then exists h :: Driver(part) == [Leave(h)] && h in w.reqs && w.reqs[h].buf == b
      else Driver(part) == []
  }

  ghost function Asking(h: nat, r: Req): seq<Event> {
    [Prepare(h, r), Notify(h)]
  }

  ghost function Flat(parts: seq<seq<Event>>): seq<Event> {
    if parts == [] then [] else Flat(parts[..|parts| - 1]) + parts[|parts| - 1]
  }

  lemma FlatMore(parts: seq<seq<Event>>, part: seq<Event>)
    ensures Flat(parts + [part]) == Flat(parts) + part
  {
    assert (parts + [part])[..|parts|] == parts;
  }

  /** Each waiting requester knows the head of its request: idx[0] of its virtio_disk_rw. */
  ghost predicate Tracks(reqs: Requests, asked: map<BufId, nat>) {
    && (forall b <- asked :: asked[b] in reqs && reqs[asked[b]].buf == b)
    && (forall h <- reqs :: reqs[h].buf in asked && asked[reqs[h].buf] == h)
  }

  lemma NotAsked(w: World, asked: map<BufId, nat>, b: BufId)
    requires Tracks(w.reqs, asked)
    ensures b in asked <==> Wanted(w, b)
    ensures b !in asked ==> forall h <- w.reqs :: w.reqs[h].buf != b
    ensures b in asked ==> asked[b] in w.reqs && w.reqs[asked[b]].buf == b
  {
  }

  lemma NothingTracked(reqs: Requests)
    requires reqs == map[]
    ensures Tracks(reqs, map[])
  {
  }

  lemma NothingYet(w: World)
    ensures Exec(w, Flat([])) == Some(w)
  {
  }

  lemma SameBufs(was: Requests, now: Requests, asked: map<BufId, nat>)
    requires Tracks(was, asked) && now.Keys == was.Keys && forall h <- was :: now[h].buf == was[h].buf
    ensures Tracks(now, asked)
  {
    forall b | b in asked ensures asked[b] in now && now[asked[b]].buf == b { assert asked[b] in was.Keys; }
    forall h | h in now ensures now[h].buf in asked && asked[now[h].buf] == h { assert h in was.Keys; }
  }

  lemma ProgressTracks(was: Requests, now: Requests, asked: map<BufId, nat>)
    requires Tracks(was, asked) && Progressed(was, now)
    ensures Tracks(now, asked)
  {
    hide Tracks;
    SameBufs(was, now, asked);
  }

  lemma ClearedTracks(was: Requests, now: Requests, busyWas: set<BufId>, busyNow: set<BufId>, seen: seq<nat>,
                      asked: map<BufId, nat>)
    requires Tracks(was, asked) && SomeCleared(was, now, busyWas, busyNow, seen)
    ensures Tracks(now, asked)
  {
    hide Tracks, Among;
    SameBufs(was, now, asked);
  }

  lemma AskedTracks(was: Requests, now: Requests, asked: map<BufId, nat>, h: nat, r: Req)
    requires Tracks(was, asked) && Added(was, now, h, r) && r.buf !in asked
    ensures Tracks(now, asked[r.buf := h])
  {
    ProgressTracks(was, now - {h}, asked);
    forall g | g in now && g != h ensures now[g].buf in asked && asked[now[g].buf] == g { assert g in now - {h}; }
  }

  lemma FinishedTracks(was: Requests, now: Requests, asked: map<BufId, nat>, b: BufId)
    requires Tracks(was, asked) && b in asked && Progressed(was - {asked[b]}, now)
    ensures Tracks(now, asked - {b})
  {
    var rest := was - {asked[b]};
    assert Tracks(rest, asked - {b});
    ProgressTracks(rest, now, asked - {b});
  }

  lemma InfoBusy(info: seq<Info>, busy: set<BufId>, reqs: Requests, h: nat)
    requires Infos(info, busy, reqs) && h in reqs
    ensures reqs[h].buf !in busy <==> reqs[h].phase.Cleared?
  {
  }

  // ---- a request more ----

  ghost predicate Added(was: Requests, now: Requests, h: nat, r: Req) {
    && h !in was && h in now && !now[h].phase.Cleared? && now[h] == r.(phase := now[h].phase)
    && Progressed(was, now - {h})
  }

  lemma AddedNew(was: Requests, now: Requests, h: nat, r: Req)
    requires Progressed(was, now) && h !in now && !r.phase.Cleared?
    ensures Added(was, now[h := r], h, r)
  {
    assert now[h := r] - {h} == now;
    assert h !in now.Keys;
  }

  lemma AddedProgress(was: Requests, now: Requests, next: Requests, h: nat, r: Req)
    requires Added(was, now, h, r) && Progressed(now, next)
    ensures Added(was, next, h, r)
  {
    ProgressJoin(was, now - {h}, next - {h}) by {
      forall g | g in now - {h} ensures g in next - {h} { assert g in next.Keys; }
      forall g | g in next - {h} ensures g in now - {h} { assert g in now.Keys; }
      assert (next - {h}).Keys == (now - {h}).Keys;
    }
    assert h in next.Keys;
  }

  lemma AddedBefore(was: Requests, now: Requests, next: Requests, h: nat, r: Req)
    requires Progressed(was, now) && Added(now, next, h, r)
    ensures Added(was, next, h, r)
  {
    assert h !in now.Keys;
    ProgressJoin(was, now, next - {h});
  }

  /** The device has gone on, and h is offered. */
  ghost predicate Published(was: Requests, now: Requests, h: nat) {
    && h in was && h in now && now[h] == was[h].(phase := Offered)
    && Progressed(was - {h}, now - {h})
  }

  lemma PublishedNow(was: Requests, now: Requests, h: nat)
    requires Progressed(was, now) && h in was
    ensures Published(was, Moved(now, h, Offered), h)
  {
    assert h in now.Keys;
    var now' := Moved(now, h, Offered);
    assert (now' - {h}).Keys == (was - {h}).Keys by { assert now'.Keys == now.Keys; }
    forall g | g in was - {h} ensures g in now && g in now' - {h} && (now' - {h})[g] == now[g] { assert g in now.Keys; }
  }

  lemma AddedPublished(was: Requests, now: Requests, next: Requests, h: nat, r: Req)
    requires Added(was, now, h, r) && Published(now, next, h)
    ensures Added(was, next, h, r)
  {
    ProgressJoin(was, now - {h}, next - {h});
  }

  lemma NotListed(desc: seq<Desc>, ops: seq<BlkReq>, reqs: Requests, q: seq<nat>, phase: Phase, h: nat)
    requires Chains(desc, ops, reqs) && Lists(q, reqs, phase) && h in reqs && reqs[h].phase != phase
    ensures Distinct(q) && h < NUM && h !in q && forall i :: 0 <= i < |q| ==> q[i] < NUM
  {
    ListsInRange(desc, ops, reqs, q, phase);
    HeadsInRange(desc, ops, reqs);
  }

  lemma TakenAdd(taken: set<nat>, reqs: Requests, h: nat, r: Req)
    requires TakenAre(taken, reqs) && h !in reqs && !r.phase.Taken?
    ensures TakenAre(taken, reqs[h := r])
  {
  }

  lemma TakenDrop(taken: set<nat>, reqs: Requests, h: nat)
    requires TakenAre(taken, reqs) && h in reqs && !reqs[h].phase.Taken?
    ensures TakenAre(taken, reqs - {h})
  {
  }

  lemma HeldStart(free: seq<bool>)
    requires |free| == NUM
    ensures Held(free, free, [], {})
  {
  }

  lemma StoredAdd(p: seq<Block>, d: map<BufId, Block>, rs: Requests, h: nat, r: Req)
    requires Stored(p, d, rs) && r.buf in d && r.blockno < |p|
    ensures Stored(p, d, rs[h := r])
  {
  }

  class VirtioDisk {
    var desc: seq<Desc>
    var avail: seq<nat>     // avail->ring
    var availIdx: nat       // avail->idx
    var used: seq<nat>      // used->ring[].id
    var usedIdx: nat        // used->idx
    var free: seq<bool>
    var seenIdx: nat        // used_idx
    var info: seq<Info>
    var ops: seq<BlkReq>
    var busy: set<BufId>    // the buffers b with b->disk == 1
    var deviceIdx: nat      // the device has read the avail ring so far
    var taken: set<nat>     // what it has read and not finished
    var data: map<BufId, Block>  // b->data
    var platter: seq<Block>      // what is on the disk
    ghost var reqs: Requests
    ghost var offered: seq<nat>  // on the avail ring, not yet read by the device
    ghost var done: seq<nat>     // on the used ring, not yet seen by the driver
    ghost const start: World
    ghost var events: seq<Event> // what has happened since the start

    ghost function Now(): World
      reads this`reqs, this`busy, this`data, this`platter
    {
      World(reqs, busy, data, platter)
    }

    /** mine: descriptors allocated but not yet part of a request, or no longer. */
    ghost predicate Valid(mine: set<nat>)
      reads this
    {
      && States(desc, ops, free, info, busy, reqs, mine, platter, data, taken)
      && Queue(avail, deviceIdx, availIdx, offered) && Queue(used, seenIdx, usedIdx, done)
      && Listed(offered, done, reqs) && Exec(start, events) == Some(Now())
    }

    /** virtio_disk_init: nothing under way. */
    constructor (blocks: seq<Block>, bufs: map<BufId, Block>)
      requires |blocks| <= 0x8000_0000
      ensures Valid({}) && Now() == start == World(map[], {}, bufs, blocks) && events == []
    {
      desc, free := seq(NUM, _ => NO_DESC), seq(NUM, _ => true);
      avail, availIdx, used, usedIdx, seenIdx, deviceIdx := seq(NUM, _ => 0), 0, seq(NUM, _ => 0), 0, 0, 0;
      info, ops, busy, taken := seq(NUM, _ => Info(None, 0)), seq(NUM, _ => BlkReq(false, 0)), {}, {};
      data, platter := bufs, blocks;
      reqs, offered, done := map[], [], [];
      start, events := World(map[], {}, bufs, blocks), [];
    }

    // ---- the device ----

    /** Any number of steps of the device, of any kind it can make. */
    method Device(ghost mine: set<nat>)
      requires Valid(mine)
      modifies this`deviceIdx, this`offered, this`reqs, this`taken, this`platter, this`data, this`info
      modifies this`used, this`usedIdx, this`done, this`events
      ensures Valid(mine) && OnlyDevice(old(Now()), old(events), Now(), events)
    {
      hide *;
      NobodyDid(Now(), events);
      var turns :| 0 <= turns;
      for k := 0 to turns
        invariant Valid(mine) && OnlyDevice(old(Now()), old(events), Now(), events)
      {
        ghost var w, said := Now(), events;
        if * {
          if deviceIdx != availIdx {
            var h := TakeRequest(mine);
            DeviceFetched(old(Now()), old(events), w, said, Now(), events, h);
          }
        } else if taken != {} {
          var h :| h in taken;
          TakenNow(h, mine);
          Complete(h, mine);
          DeviceCarried(old(Now()), old(events), w, said, Now(), events, h);
        }
      }
    }

    lemma TakenNow(h: nat, mine: set<nat>)
      requires Valid(mine) && h in taken
      ensures h in Now().reqs && Now().reqs[h].phase.Taken?
    {
      hide Chains, Unclaimed, Queue, Listed, Infos, Conserved, Stored, Blank, Exec;
    }

    /** The device reads an entry of the avail ring. */
    method TakeRequest(ghost mine: set<nat>) returns (h: nat)
      requires Valid(mine) && deviceIdx != availIdx
      modifies this`deviceIdx, this`offered, this`reqs, this`taken, this`events
      ensures Valid(mine) && h in old(Now()).reqs && old(Now()).reqs[h].phase.Offered?
      ensures Now() == old(Now()).(reqs := Moved(old(Now()).reqs, h, Taken))
      ensures old(offered) != [] && h == old(offered)[0] && events == old(events) + [Fetch(h)]
      ensures Driver(events) == old(Driver(events))
    {
      hide States, Listed, Queue, Exec, Driver, Moved;
      EmptyIff(avail, deviceIdx, availIdx, offered);
      Pop(avail, deviceIdx, availIdx, offered);
      QueueLength(avail, deviceIdx, availIdx, offered);
      h := avail[deviceIdx % NUM];
      ListedFetch(offered, done, reqs);
      HeadInRange(h, mine);
      StatesMove(desc, ops, free, info, info, busy, busy, reqs, mine, platter, platter, data, data, taken, taken + {h},
                 h, Taken);
      Fetched(start, events, Now(), h);
      deviceIdx := (deviceIdx + 1) % U16;
      offered := offered[1..];
      taken := taken + {h};
      reqs := Moved(reqs, h, Taken);
      events := events + [Fetch(h)];
    }

    /**
    The device carries out a request it has taken, any one of them, as the descriptors say: that is
    the transfer the request asked for. It then puts the head on the used ring.
    */
    method Complete(h: nat, ghost mine: set<nat>)
      requires Valid(mine) && h in Now().reqs && Now().reqs[h].phase.Taken?
      modifies this`platter, this`data, this`info, this`used, this`usedIdx, this`done, this`reqs, this`taken
      modifies this`events
      ensures Valid(mine)
      ensures var w := old(Now());
              && w.reqs[h].buf in w.data && w.reqs[h].blockno < |w.platter|
              && Now() == Transferred(w, w.reqs[h]).(reqs := Moved(w.reqs, h, Used))
      ensures events == old(events) + [Carry(h)] && Driver(events) == old(Driver(events))
    {
      hide States, Listed, Queue, Exec, Driver, Moved, Transferred;
      RequestStored(h, mine);
      Carried(start, events, Now(), h);
      Transfer(h, mine);
      Deliver(h, mine);
    }

    /** The device's entry on the used ring, once the transfer is done. */
    method Deliver(h: nat, ghost mine: set<nat>)
      requires h in reqs && reqs[h].phase.Taken?
      requires States(desc, ops, free, info, busy, Moved(reqs, h, Used), mine, platter, data, taken - {h})
      requires Queue(avail, deviceIdx, availIdx, offered) && Queue(used, seenIdx, usedIdx, done)
      requires Listed(offered, done, reqs)
      requires Exec(start, events + [Carry(h)]) == Some(Now().(reqs := Moved(reqs, h, Used)))
      modifies this`used, this`usedIdx, this`done, this`reqs, this`taken, this`events
      ensures Valid(mine) && reqs == Moved(old(reqs), h, Used) && events == old(events) + [Carry(h)]
    {
      hide States, Listed, Queue, Exec, Moved, Distinct, Valid;
      RoomForUsed(h, mine);
      Push(used, seenIdx, usedIdx, done, h);
      ListedCarry(offered, done, reqs, h);
      used := used[usedIdx % NUM := h];
      usedIdx := (usedIdx + 1) % U16;
      done := done + [h];
      taken := taken - {h};
      reqs := Moved(reqs, h, Used);
      events := events + [Carry(h)];
      ValidIs(mine);
    }

    lemma ValidIs(mine: set<nat>)
      requires States(desc, ops, free, info, busy, reqs, mine, platter, data, taken)
      requires Queue(avail, deviceIdx, availIdx, offered) && Queue(used, seenIdx, usedIdx, done)
      requires Listed(offered, done, reqs) && Exec(start, events) == Some(Now())
      ensures Valid(mine)
    {
      hide States, Listed, Queue, Exec;
    }

    lemma RoomForUsed(h: nat, mine: set<nat>)
      requires h in reqs && reqs[h].phase.Taken? && Queue(used, seenIdx, usedIdx, done) && Listed(offered, done, reqs)
      requires States(desc, ops, free, info, busy, Moved(reqs, h, Used), mine, platter, data, taken - {h})
      ensures |used| == NUM && usedIdx < U16 && |done| < NUM
    {
      hide Chains, Conserved, Unclaimed, Blank, Infos, Stored, TakenAre, Lists, Moved;
      ListsJoin(done, reqs, h, Used);
      ListsInRange(desc, ops, Moved(reqs, h, Used), done + [h], Used);
      assert (done + [h])[|done|] == h && forall i :: 0 <= i < |done| ==> (done + [h])[i] == done[i];
      Room(done, h);
    }

    /**
    What the descriptors from h on tell the device to do: a header it reads, a buffer it reads or writes as the
    request and the buffer's flag both say, and a status byte it writes. Anything else is an error.
    */
    method Transfer(h: nat, ghost mine: set<nat>)
      requires States(desc, ops, free, info, busy, reqs, mine, platter, data, taken)
      requires h in reqs && reqs[h].phase.Taken? && reqs[h].buf in data && reqs[h].blockno < |platter|
      modifies this`platter, this`data, this`info
      ensures States(desc, ops, free, info, busy, Moved(reqs, h, Used), mine, platter, data, taken - {h})
      ensures |platter| == |old(platter)| && data.Keys == old(data).Keys && Now() == Transferred(old(Now()), reqs[h])
    {
      hide States, Chains, Conserved, Unclaimed, Blank, Infos, Stored, TakenAre, Sector, Moved, BytesAt, WithBytes;
      HeadInRange(h, mine);
      StatesParts(desc, ops, free, info, busy, reqs, mine, platter, data, taken);
      ChainOf(desc, ops, reqs, h);
      SectorIs(platter, data, reqs, h);
      var op, head, middle := ops[desc[h].addr.i], desc[h], desc[desc[h].next];
      var last, at := desc[middle.next], op.sector * SECTOR;
      var b, status := middle.addr.b, last.addr.i;
      var fine := head.more && !head.write && head.len == 16 && middle.more && middle.write == !op.write
                  && !last.more && last.write && last.len == 1 && at + middle.len <= |platter| * BSIZE;
      BlockRead(platter, reqs[h].blockno);
      BlockWritten(platter, reqs[h].blockno, data[b]);
      assert data[b][..BSIZE] == data[b];
      if fine && op.write { platter := WithBytes(platter, at, data[b][..middle.len]); }
      else if fine { data := data[b := BytesAt(platter, at, middle.len)]; }
      info := info[status := info[status].(status := StatusOf(fine))];
      StatesMove(desc, ops, free, old(info), info, busy, busy, reqs, mine, old(platter), platter, old(data), data,
                 taken, taken - {h}, h, Used);
    }

    lemma HeadInRange(h: nat, mine: set<nat>)
      requires States(desc, ops, free, info, busy, reqs, mine, platter, data, taken) && h in reqs
      ensures h < NUM == |info| && info[h].b == Some(reqs[h].buf) && (reqs[h].phase.Used? ==> info[h].status == 0)
    {
      hide Chains, Conserved, Unclaimed, Blank, Stored, TakenAre;
    }

    lemma RequestStored(h: nat, mine: set<nat>)
      requires States(desc, ops, free, info, busy, reqs, mine, platter, data, taken) && h in reqs
      ensures reqs[h].buf in data && reqs[h].blockno < |platter|
    {
      hide Chains, Conserved, Unclaimed, Blank, Infos, TakenAre;
    }

    /** A request that is not in the phase of a list is not on it. */
    lemma NotDone(h: nat, mine: set<nat>)
      requires States(desc, ops, free, info, busy, reqs, mine, platter, data, taken) && Listed(offered, done, reqs)
      requires h in reqs
      ensures h < NUM
      ensures !reqs[h].phase.Used? ==> h !in done
      ensures !reqs[h].phase.Offered? ==> h !in offered
      ensures Distinct(done) && forall i :: 0 <= i < |done| ==> done[i] < NUM
      ensures Distinct(offered) && forall i :: 0 <= i < |offered| ==> offered[i] < NUM
    {
      hide Chains, Conserved, Unclaimed, Blank, Infos, Stored, TakenAre;
      ListsInRange(desc, ops, reqs, done, Used);
      ListsInRange(desc, ops, reqs, offered, Offered);
      HeadsInRange(desc, ops, reqs);
    }

    // ---- descriptors ----

    /** A free descriptor, marked in use; None when there is none. */
    method AllocDesc(ghost mine: set<nat>) returns (r: Option<nat>)
      requires Valid(mine)
      modifies this`free
      ensures r.None? ==> free == old(free) && forall i: nat :: i < NUM ==> !free[i]
      ensures r.Some? ==>
                && r.value < NUM && old(free)[r.value] && r.value !in mine && free == old(free)[r.value := false]
                && (forall i: nat :: i < r.value ==> !free[i])
                && desc[r.value] == NO_DESC && Valid(mine + {r.value})
    {
      hide States, Listed, Queue, Exec, Driver;
      Lengths(mine);
      var i := 0;
      while i < NUM
        invariant i <= NUM && free == old(free) && forall j: nat :: j < i ==> !free[j]
      {
        if free[i] {
          StatesTake(desc, ops, free, info, busy, reqs, mine, platter, data, taken, i);
          free := free[i := false];
          return Some(i);
        }
        i := i + 1;
      }
      return None;
    }

    lemma Lengths(mine: set<nat>)
      requires Valid(mine)
      ensures |free| == |desc| == |ops| == |info| == |avail| == NUM && availIdx < U16 && seenIdx < U16
    {
      hide Unclaimed, Listed, Stored, Blank, TakenAre, Exec, ChainIn, ReqsApart, InChain;
    }

    /** free_desc of a descriptor in hand, so that it never panics. */
    method FreeDesc(i: nat, ghost mine: set<nat>)
      requires Valid(mine) && i in mine
      modifies this`desc, this`free
      ensures i < NUM && Valid(mine - {i}) && free == old(free)[i := true] && desc == old(desc)[i := NO_DESC]
    {
      hide States, Listed, Queue, Exec, Driver;
      Lengths(mine);
      StatesGive(desc, ops, free, info, busy, reqs, mine, platter, data, taken, i);
      desc := desc[i := NO_DESC];
      free := free[i := true];
    }

    /** Three descriptors, or none and no change: what was taken is given back if there are not enough. */
    method Alloc3Desc() returns (r: Option<(nat, nat, nat)>)
      requires Valid({})
      modifies this`free, this`desc
      modifies this`deviceIdx, this`offered, this`reqs, this`taken, this`platter, this`data, this`info
      modifies this`used, this`usedIdx, this`done, this`events
      ensures OnlyDevice(old(Now()), old(events), Now(), events) && desc == old(desc)
      ensures r.None? <==> FewerThanThree(old(free))
      ensures r.None? ==> Valid({}) && free == old(free)
      ensures r.Some? ==>
                var (i, j, k) := r.value;
                && i < NUM && j < NUM && k < NUM && i != j && i != k && j != k
                && old(free)[i] && old(free)[j] && old(free)[k]
                && free == old(free)[i := false][j := false][k := false]
                && Valid({i, j, k})
    {
      hide *;
      Lengths({});
      ghost var mine: set<nat> := {};
      var idx: seq<nat> := [];
      NobodyDid(Now(), events);
      HeldStart(free);
      ZeroedNone(desc);
      while |idx| < 3
        invariant |idx| <= 3 && Valid(mine) && desc == old(desc) && Held(old(free), free, idx, mine)
        invariant Zeroed(desc, mine)
        invariant OnlyDevice(old(Now()), old(events), Now(), events)
      {
        ghost var now, said := Now(), events;
        Device(mine);
        DeviceJoin(old(Now()), old(events), now, said, Now(), events);
        Lengths(mine);
        ghost var before := free;
        var d := AllocDesc(mine);
        if d.None? {
          NotEnough(old(free), free, idx, mine);
          var j := 0;
          while j < |idx|
            invariant j <= |idx| && Valid(mine) && desc == old(desc) && Held(old(free), free, idx[j..], mine)
            invariant Zeroed(desc, mine)
            invariant OnlyDevice(old(Now()), old(events), Now(), events)
          {
            now, said := Now(), events;
            Device(mine);
            DeviceJoin(old(Now()), old(events), now, said, Now(), events);
            HeldFirst(old(free), free, idx[j..], mine);
            assert idx[j..][1..] == idx[j + 1..];
            ZeroedLess(desc, mine, idx[j]);
            FreeDesc(idx[j], mine);
            mine := mine - {idx[j]};
            j := j + 1;
          }
          HeldNone(old(free), free, idx[j..], mine);
          return None;
        }
        ZeroedMore(desc, mine, d.value);
        HeldMore(old(free), before, idx, mine, d.value);
        mine := mine + {d.value};
        idx := idx + [d.value];
      }
      HeldThree(old(free), free, idx, mine);
      r := Some((idx[0], idx[1], idx[2]));
    }

    // ---- virtio_disk_rw ----

    /**
    The first part of virtio_disk_rw: descriptors for a request, offered to the device. None while there
    are too few, which is just when two requests are under way; then the caller sleeps. No request for this
    buffer may be under way: its caller holds b->lock.
    */
    method Submit(b: BufId, blockno: nat, write: bool) returns (head: Option<nat>)
      requires Valid({}) && b in data && blockno < |platter| && forall h <- reqs :: reqs[h].buf != b
      modifies this
      ensures Valid({}) && data.Keys == old(data).Keys && |platter| == |old(platter)| && old(events) <= events
      ensures head.None? <==> |old(reqs)| == 2
      ensures |old(reqs)| <= 2
      ensures head.None? ==>
                && Progressed(old(reqs), reqs) && busy == old(busy) && free == old(free) && desc == old(desc)
                && Driver(events) == old(Driver(events))
      ensures head.Some? ==>
                exists i1, i2 ::
                  var r := Req(b, blockno, write, i1, i2, Ready);
                  && busy == old(busy) + {b} && Added(old(reqs), reqs, head.value, r)
                  && Driver(events) == old(Driver(events)) + Asking(head.value, r)
    {
      hide Valid, Progressed, Driver, Added, FewerThanThree, Asking, Settles, SomeCleared, Published, Pending;
      Few();
      ghost var was := reqs;
      var idx := Alloc3Desc();
      if idx.None? { return None; }
      var (i0, i1, i2) := idx.value;
      ProgressApart(was, reqs, i0, b);
      ghost var now := reqs;
      Start(i0, i1, i2, b, blockno, write);
      AddedBefore(was, now, reqs, i0, Req(b, blockno, write, i1, i2, Ready));
      return Some(i0);
    }

    lemma Few()
      requires Valid({})
      ensures |reqs| <= 2 && (FewerThanThree(free) <==> |reqs| == 2)
    {
      hide Queue, Listed, Exec, FewerThanThree, Infos, Stored, Blank, TakenAre, Unclaimed;
      TwoAtMost(desc, ops, free, reqs);
    }

    /** virtio_disk_rw from having descriptors to notifying the device. */
    method Start(i0: nat, i1: nat, i2: nat, b: BufId, blockno: nat, write: bool)
      requires i0 < NUM && i1 < NUM && i2 < NUM && i0 != i1 && i0 != i2 && i1 != i2
      requires Valid({i0, i1, i2}) && b in data && blockno < |platter| && forall h <- reqs :: reqs[h].buf != b
      modifies this
      ensures Valid({}) && data.Keys == old(data).Keys && |platter| == |old(platter)| && busy == old(busy) + {b}
      ensures var r := Req(b, blockno, write, i1, i2, Ready);
        && Added(old(reqs), reqs, i0, r)
        && old(events) <= events && Driver(events) == old(Driver(events)) + Asking(i0, r)
    {
      hide Valid, Progressed, Driver, Added, FewerThanThree, Asking, Settles, SomeCleared, Published, Pending;
      ghost var r := Req(b, blockno, write, i1, i2, Ready);
      ghost var was := reqs;
      Device({i0, i1, i2});
      ProgressApart(was, reqs, i0, b);
      ghost var now := reqs;
      Setup(i0, i1, i2, b, blockno, write);
      AddedNew(was, now, i0, r);
      now := reqs;
      Device({});
      AddedProgress(was, now, reqs, i0, r);
      ProgressOne(now, reqs, i0);
      now := reqs;
      Publish(i0);
      AddedPublished(was, now, reqs, i0, r);
      AskingIs(i0, r);
    }

    lemma AskingIs(h: nat, r: Req)
      ensures Asking(h, r) == [Prepare(h, r)] + [Notify(h)]
    {
    }

    /** The descriptors and the command are filled in, and the request is recorded for virtio_disk_intr. */
    method Setup(i0: nat, i1: nat, i2: nat, b: BufId, blockno: nat, write: bool)
      requires i0 < NUM && i1 < NUM && i2 < NUM && i0 != i1 && i0 != i2 && i1 != i2
      requires Valid({i0, i1, i2}) && b in data && blockno < |platter| && forall h <- reqs :: reqs[h].buf != b
      modifies this`desc, this`ops, this`info, this`busy, this`reqs, this`events
      ensures Valid({}) && busy == old(busy) + {b} && i0 !in old(reqs)
      ensures var r := Req(b, blockno, write, i1, i2, Ready);
        && reqs == old(reqs)[i0 := r]
        && events == old(events) + [Prepare(i0, r)] && Driver(events) == old(Driver(events)) + [Prepare(i0, r)]
    {
      hide States, Listed, Queue, Exec, Driver, Moved, ChainIn;
      ghost var r := Req(b, blockno, write, i1, i2, Ready);
      ghost var desc0, ops0 := desc, ops;
      Lengths({i0, i1, i2});
      Format(i0, i1, i2, b, blockno, write);
      StatesAdd(desc0, ops0, desc, ops, free, info, busy, reqs, platter, data, taken, i0, r);
      ListedAdd(offered, done, reqs, i0, r);
      Prepared(start, events, Now(), i0, r);
      Record(i0, b);
      reqs := reqs[i0 := r];
      events := events + [Prepare(i0, r)];
    }

    /** The three descriptors and the command header. */
    method Format(i0: nat, i1: nat, i2: nat, b: BufId, blockno: nat, write: bool)
      requires i0 < NUM && i1 < NUM && i2 < NUM && i0 != i1 && i0 != i2 && i1 != i2 && |desc| == |ops| == NUM
      modifies this`desc, this`ops
      ensures ChainIn(desc, ops, i0, Req(b, blockno, write, i1, i2, Ready))
      ensures forall i :: 0 <= i < NUM && i != i0 && i != i1 && i != i2 ==>
                desc[i] == old(desc)[i] && ops[i] == old(ops)[i]
    {
      ops := ops[i0 := BlkReq(write, Sector(blockno))];
      desc := desc[i0 := Desc(Op(i0), 16, true, false, i1)];
      desc := desc[i1 := Desc(Data(b), BSIZE, true, !write, i2)];
      desc := desc[i2 := Desc(Status(i0), 1, false, true, 0)];
    }

    /** The status byte, b->disk and disk.info[head].b */
    method Record(head: nat, b: BufId)
      requires head < |info|
      modifies this`info, this`busy
      ensures info == old(info)[head := Info(Some(b), 0xff)] && busy == old(busy) + {b}
    {
      info := info[head := info[head].(status := 0xff)];
      busy := busy + {b};
      info := info[head := info[head].(b := Some(b))];
    }

    /** avail->ring[avail->idx % NUM] = head; avail->idx += 1, with the device at work in between. */
    method Publish(head: nat)
      requires Valid({}) && head in reqs && reqs[head].phase.Ready?
      modifies this`avail, this`availIdx
      modifies this`deviceIdx, this`offered, this`reqs, this`taken, this`platter, this`data, this`info
      modifies this`used, this`usedIdx, this`done, this`events
      ensures Valid({}) && data.Keys == old(data).Keys && |platter| == |old(platter)|
      ensures Published(old(reqs), reqs, head)
      ensures old(events) <= events && Driver(events) == old(Driver(events)) + [Notify(head)]
    {
      hide States, Listed, Queue, Exec, Driver, Moved, Distinct, Progressed, Published;
      ghost var was := reqs;
      Lengths({});
      NotDone(head, {});
      Room(offered, head);
      Slot(avail, deviceIdx, availIdx, offered, head);
      avail := avail[availIdx % NUM := head];
      Device({});
      ProgressOne(was, reqs, head);
      Enter(head, was);
    }

    /** avail->idx += 1, past the entry just written */
    method Enter(head: nat, ghost was: Requests)
      requires Valid({}) && head in reqs && reqs[head].phase.Ready?
      requires |avail| == NUM && avail[availIdx % NUM] == head
      requires Progressed(was, reqs) && head in was
      modifies this`availIdx, this`offered, this`reqs, this`events
      ensures Valid({}) && Published(was, reqs, head)
      ensures events == old(events) + [Notify(head)] && Driver(events) == old(Driver(events)) + [Notify(head)]
    {
      hide States, Listed, Queue, Exec, Driver, Moved, Distinct, Progressed, Published;
      Lengths({});
      NotDone(head, {});
      HeadInRange(head, {});
      Room(offered, head);
      Push(avail, deviceIdx, availIdx, offered, head);
      assert avail[availIdx % NUM := head] == avail;
      ListedOffer(offered, done, reqs, head);
      StatesMove(desc, ops, free, info, info, busy, busy, reqs, {}, platter, platter, data, data, taken, taken,
                 head, Offered);
      Notified(start, events, Now(), head);
      PublishedNow(was, reqs, head);
      availIdx := (availIdx + 1) % U16;
      offered := offered + [head];
      reqs := Moved(reqs, head, Offered);
      events := events + [Notify(head)];
    }

    // ---- virtio_disk_intr ----

    /**
    The interrupt: b->disk is cleared for just the buffers whose requests the device has finished, when
    the interrupt begins or while it is at work; at the end there is no such request left. seen lists
    the requests.
    */
    method Intr() returns (ghost seen: seq<nat>)
      requires Valid({})
      modifies this`busy, this`seenIdx
      modifies this`deviceIdx, this`offered, this`reqs, this`taken, this`platter, this`data, this`info
      modifies this`used, this`usedIdx, this`done, this`events
      ensures Valid({}) && data.Keys == old(data).Keys && |platter| == |old(platter)|
      ensures SomeCleared(old(reqs), reqs, old(busy), busy, seen)
      ensures (forall h <- reqs :: !reqs[h].phase.Used?)
      ensures forall h <- old(reqs) :: old(reqs)[h].phase.Used? ==> h in seen
      ensures old(events) <= events && Driver(events) == old(Driver(events)) + Settles(seen)
    {
      hide Valid, Progressed, Driver, Added, FewerThanThree, Asking, Settles, SomeCleared, Published, Pending;
      ghost var was, busyWas := reqs, busy;
      seen := [];
      Device({});
      NoneCleared(was, reqs, busy);
      SettlesNone();
      while seenIdx != usedIdx
        invariant Valid({}) && SomeCleared(was, reqs, busyWas, busy, seen)
        invariant data.Keys == old(data).Keys && |platter| == |old(platter)|
        invariant old(events) <= events && Driver(events) == old(Driver(events)) + Settles(seen)
        decreases Pending(reqs)
      {
        ghost var now, busyNow := reqs, busy;
        var id := See();
        OneMoreCleared(was, now, busyWas, busyNow, seen, id);
        SettlesMore(seen, id);
        seen := seen + [id];
        ghost var next := reqs;
        Device({});
        ClearedProgress(was, next, reqs, busyWas, busy, seen);
      }
      NoneLeft(was, busyWas, seen);
    }

    lemma SettlesNone()
      ensures Settles([]) == []
    {
    }

    lemma NoneLeft(was: Requests, busyWas: set<BufId>, seen: seq<nat>)
      requires Valid({}) && SomeCleared(was, reqs, busyWas, busy, seen) && seenIdx == usedIdx
      ensures forall h <- reqs :: !reqs[h].phase.Used?
      ensures forall h <- was :: was[h].phase.Used? ==> h in seen
    {
      hide States, Queue, Exec, SomeCleared, Lists;
      AllCleared(was, reqs, busyWas, busy, seen, done, used, seenIdx, usedIdx);
    }

    /** One entry of the used ring; its status is 0, so that virtio_disk_intr never panics. */
    method See() returns (id: nat)
      requires Valid({}) && seenIdx != usedIdx
      modifies this`busy, this`seenIdx, this`done, this`reqs, this`events
      ensures Valid({}) && old(done) != [] && done == old(done)[1..]
      ensures id in old(reqs) && old(reqs)[id].phase.Used? && reqs == Moved(old(reqs), id, Cleared)
      ensures busy == old(busy) - {old(reqs)[id].buf}
      ensures events == old(events) + [Settle(id)] && Driver(events) == old(Driver(events)) + [Settle(id)]
    {
      hide States, Listed, Queue, Exec, Driver, Moved;
      EmptyIff(used, seenIdx, usedIdx, done);
      Pop(used, seenIdx, usedIdx, done);
      QueueLength(used, seenIdx, usedIdx, done);
      id := used[seenIdx % NUM];
      ListedSee(offered, done, reqs);
      HeadInRange(id, {});
      assert info[id].status == 0;
      var b := info[id].b.value;
      StatesMove(desc, ops, free, info, info, busy, busy - {b}, reqs, {}, platter, platter, data, data, taken, taken,
                 id, Cleared);
      Settled(start, events, Now(), id);
      busy := busy - {b};
      seenIdx := (seenIdx + 1) % U16;
      done := done[1..];
      reqs := Moved(reqs, id, Cleared);
      events := events + [Settle(id)];
    }

    // ---- the end of virtio_disk_rw ----

    /** The rest of virtio_disk_rw, once b->disk is clear: just this request's chain is freed. */
    method Finish(h: nat)
      requires Valid({}) && h in reqs && reqs[h].phase.Cleared?
      modifies this`free, this`desc
      modifies this`deviceIdx, this`offered, this`reqs, this`taken, this`platter, this`data, this`info
      modifies this`used, this`usedIdx, this`done, this`events
      ensures Valid({}) && data.Keys == old(data).Keys && |platter| == |old(platter)|
      ensures Progressed(old(reqs) - {h}, reqs)
      ensures forall i: nat :: i < |free| ==> free[i] == (old(free)[i] || InChain(h, old(reqs)[h], i))
      ensures |free| == |old(free)|
      ensures old(events) <= events && Driver(events) == old(Driver(events)) + [Leave(h)]
    {
      hide States, Listed, Queue, Exec, Driver, Links, Members, Progressed, InChain;
      ghost var r := reqs[h];
      HeadInRange(h, {});
      StatesDrop(desc, ops, free, info, busy, reqs, platter, data, taken, h);
      ListedDrop(offered, done, reqs, h);
      Left(start, events, Now(), h);
      info := info[h := info[h].(b := None)];
      reqs := reqs - {h};
      events := events + [Leave(h)];
      FreeChain(h, r);
    }

    method FreeChain(h: nat, ghost r: Req)
      requires Valid(Members(h, r)) && h != r.i1 && h != r.i2 && r.i1 != r.i2 && Links(desc, h, r)
      modifies this`free, this`desc
      modifies this`deviceIdx, this`offered, this`reqs, this`taken, this`platter, this`data, this`info
      modifies this`used, this`usedIdx, this`done, this`events
      ensures Valid({}) && OnlyDevice(old(Now()), old(events), Now(), events)
      ensures |free| == |old(free)|
      ensures forall i: nat :: i < |free| ==> free[i] == (old(free)[i] || InChain(h, r, i))
    {
      hide States, Listed, Queue, Exec, Driver, OnlyDevice;
      Lengths(Members(h, r));
      NobodyDid(Now(), events);
      ghost var mine := Members(h, r);
      ghost var left := 3;
      var i := h;
      while true
        invariant 1 <= left <= 3 && Valid(mine) && |free| == |old(free)| == NUM && |desc| == NUM
        invariant i == (if left == 3 then h else if left == 2 then r.i1 else r.i2)
        invariant mine == (if left == 3 then {h, r.i1, r.i2} else if left == 2 then {r.i1, r.i2} else {r.i2})
        invariant forall j :: j in mine ==> desc[j] == old(desc)[j]
        invariant forall j: nat :: j < NUM ==> free[j] == (old(free)[j] || (InChain(h, r, j) && j !in mine))
        invariant OnlyDevice(old(Now()), old(events), Now(), events)
        decreases left
      {
        ghost var now, said := Now(), events;
        Device(mine);
        DeviceJoin(old(Now()), old(events), now, said, Now(), events);
        var flag, nxt := desc[i].more, desc[i].next;
        FreeDesc(i, mine);
        mine := mine - {i};
        left := left - 1;
        if flag { i := nxt; } else { break; }
      }
      assert mine == {};
    }

    /** The owner of a buffer changes its bytes. */
    method FillBuffer(b: BufId, x: Block)
      requires Valid({}) && b in data && !Wanted(Now(), b)
      modifies this`data, this`events
      ensures Valid({}) && data == old(data)[b := x]
      ensures events == old(events) + [Edit(b, x)] && Driver(events) == old(Driver(events)) + [Edit(b, x)]
    {
      hide States, Listed, Queue, Exec, Driver, Wanted;
      StatesFill(desc, ops, free, info, busy, reqs, platter, data, taken, b, x);
      Edited(start, events, Now(), b, x);
      data := data[b := x];
      events := events + [Edit(b, x)];
    }

    // ---- runs ----

    /**
    Any calls of the driver, with the device doing anything at any time: nothing ever panics, each call has
    the outcome Did says, and the whole is a run of the machine of VirtioRun. Hence a requester that finds
    b->disk clear finds its own request done, and Served tells what has become of it. asked holds each
    waiting requester's idx[0].
    */
    method Run(calls: seq<Call>) returns (ghost run: seq<World>, ghost parts: seq<seq<Event>>)
      requires Valid({}) && reqs == map[]
      modifies this
      ensures Valid({}) && |run| == |calls| + 1 && |parts| == |calls| && run[0] == old(Now()) && run[|calls|] == Now()
      ensures Exec(run[0], Flat(parts)) == Some(run[|calls|])
      ensures forall k :: 0 <= k < |calls| ==>
                Exec(run[k], parts[k]) == Some(run[k + 1]) && Did(run[k], calls[k], parts[k], run[k + 1])
    {
      hide *;
      var asked: map<BufId, nat> := map[];
      NothingTracked(reqs);
      run, parts := [Now()], [];
      NothingYet(Now());
      for k := 0 to |calls|
        invariant Valid({}) && Tracks(reqs, asked) && |run| == k + 1 && |parts| == k
        invariant run[0] == old(Now()) && run[k] == Now() && Exec(run[0], Flat(parts)) == Some(run[k])
        invariant forall j :: 0 <= j < k ==>
                    Exec(run[j], parts[j]) == Some(run[j + 1]) && Did(run[j], calls[j], parts[j], run[j + 1])
      {
        ghost var before := events;
        asked := Do(calls[k], asked);
        ghost var part := events[|before|..];
        FlatMore(parts, part);
        Split(run[0], Flat(parts), part);
        run, parts := run + [Now()], parts + [part];
      }
    }

    /** What has happened since is a run from then till now, with x as the driver's part. */
    lemma Since(before: seq<Event>, w: World, x: seq<Event>)
      requires Valid({}) && before <= events && Exec(start, before) == Some(w) && Driver(events) == Driver(before) + x
      ensures Exec(w, events[|before|..]) == Some(Now()) && Driver(events[|before|..]) == x
    {
      hide States, Listed, Queue, Exec, Driver;
      assert before + events[|before|..] == events;
      Split(start, before, events[|before|..]);
      DriverSplit(before, events[|before|..]);
      assert Driver(events)[|Driver(before)|..] == x;
    }

    lemma Until()
      requires Valid({})
      ensures Exec(start, events) == Some(Now())
    {
      hide States, Listed, Queue, Exec;
    }

    method DoAsk(b: BufId, blockno: nat, write: bool, asked: map<BufId, nat>) returns (asked': map<BufId, nat>)
      requires Valid({}) && Tracks(reqs, asked)
      modifies this
      ensures Valid({}) && Tracks(reqs, asked') && old(events) <= events
      ensures var part := events[|old(events)|..];
              Exec(old(Now()), part) == Some(Now()) && Did(old(Now()), Ask(b, blockno, write), part, Now())
    {
      hide Valid, Tracks, Added, Progressed, Exec, Driver, Wanted, Asking;
      ghost var before, w := events, Now();
      Until();
      NotAsked(w, asked, b);
      asked' := asked;
      if b in data && blockno < |platter| && b !in asked {
        var head := Submit(b, blockno, write);
        if head.Some? {
          ghost var i1, i2 :|
            var r := Req(b, blockno, write, i1, i2, Ready);
            && Added(w.reqs, reqs, head.value, r) && Driver(events) == Driver(before) + Asking(head.value, r);
          Since(before, w, Asking(head.value, Req(b, blockno, write, i1, i2, Ready)));
          AskedTracks(w.reqs, reqs, asked, head.value, Req(b, blockno, write, i1, i2, Ready));
          asked' := asked[b := head.value];
        } else {
          Since(before, w, []);
          ProgressTracks(w.reqs, reqs, asked);
        }
      } else {
        Device({});
        Since(before, w, []);
        ProgressTracks(w.reqs, reqs, asked);
      }
    }

    method DoFill(b: BufId, x: Block, asked: map<BufId, nat>)
      requires Valid({}) && Tracks(reqs, asked)
      modifies this
      ensures Valid({}) && Tracks(reqs, asked) && old(events) <= events
      ensures var part := events[|old(events)|..];
              Exec(old(Now()), part) == Some(Now()) && Did(old(Now()), Fill(b, x), part, Now())
    {
      hide Valid, Tracks, Progressed, Exec, Driver, Wanted;
      ghost var before, w := events, Now();
      Until();
      NotAsked(w, asked, b);
      Device({});
      ProgressTracks(w.reqs, reqs, asked);
      if b in data && b !in asked {
        NotAsked(Now(), asked, b);
        FillBuffer(b, x);
        Since(before, w, [Edit(b, x)]);
      } else {
        Since(before, w, []);
      }
    }

    method DoIntr(asked: map<BufId, nat>)
      requires Valid({}) && Tracks(reqs, asked)
      modifies this
      ensures Valid({}) && Tracks(reqs, asked) && old(events) <= events
      ensures var part := events[|old(events)|..];
              Exec(old(Now()), part) == Some(Now()) && Did(old(Now()), Interrupt, part, Now())
    {
      hide Valid, Tracks, Progressed, Exec, Driver, Wanted, SomeCleared, Settles;
      ghost var before, w := events, Now();
      Until();
      ghost var seen := Intr();
      ClearedTracks(w.reqs, reqs, w.busy, busy, seen, asked);
      Since(before, w, Settles(seen));
    }

    method DoWake(b: BufId, asked: map<BufId, nat>) returns (asked': map<BufId, nat>)
      requires Valid({}) && Tracks(reqs, asked)
      modifies this
      ensures Valid({}) && Tracks(reqs, asked') && old(events) <= events
      ensures var part := events[|old(events)|..];
              Exec(old(Now()), part) == Some(Now()) && Did(old(Now()), Wake(b), part, Now())
    {
      hide Valid, Tracks, Progressed, Exec, Driver, Wanted;
      ghost var before, w := events, Now();
      Until();
      NotAsked(w, asked, b);
      Device({});
      ghost var now := reqs;
      ProgressTracks(w.reqs, reqs, asked);
      asked' := asked;
      if b in asked && b !in busy {
        NotAsked(Now(), asked, b);
        var h := asked[b];
        ClearIsDone(h);
        Finish(h);
        FinishedTracks(now, reqs, asked, b);
        asked' := asked - {b};
        Since(before, w, [Leave(h)]);
      } else {
        Since(before, w, []);
      }
    }

    /** A requester that finds b->disk clear finds its request done. */
    lemma ClearIsDone(h: nat)
      requires Valid({}) && h in reqs && reqs[h].buf !in busy
      ensures reqs[h].phase.Cleared?
    {
      hide Chains, Unclaimed, Queue, Listed, Infos, Conserved, Stored, Blank, TakenAre, Exec;
      InfoBusy(info, busy, reqs, h);
    }

    /** One call, and what the device does in the course of it. */
    method Do(call: Call, asked: map<BufId, nat>) returns (asked': map<BufId, nat>)
      requires Valid({}) && Tracks(reqs, asked)
      modifies this
      ensures Valid({}) && Tracks(reqs, asked') && old(events) <= events
      ensures var part := events[|old(events)|..];
              Exec(old(Now()), part) == Some(Now()) && Did(old(Now()), call, part, Now())
    {
      hide *;
      match call {
        case Ask(b, blockno, write) => asked' := DoAsk(b, blockno, write, asked);
        case Fill(b, x) => DoFill(b, x, asked); asked' := asked;
        case Interrupt => DoIntr(asked); asked' := asked;
        case Wake(b) => asked' := DoWake(b, asked);
      }
    }
  }
}
