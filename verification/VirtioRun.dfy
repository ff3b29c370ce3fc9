/**
Runs of the disk driver and the device together, as a machine over the requests under way, the flags
b->disk, the buffers and the disk. Its events are what the driver (kernel/virtio_disk.c) and the device
do to a request, in whatever order they come; RequestDone says what a requester gets out of them.
*/
module VirtioRun {
  import opened Wrappers
  import opened VirtioQueue

  type Block = b: seq<nat> | |b| == BSIZE witness seq(BSIZE, _ => 0)

  /** busy: the buffers b with b->disk == 1; data: b->data; platter: what is on the disk. */
  datatype World = World(reqs: Requests, busy: set<BufId>, data: map<BufId, Block>, platter: seq<Block>)

  datatype Event =
    | Edit(b: BufId, x: Block)   // the owner of a buffer changes its bytes
    | Prepare(h: nat, r: Req)    // virtio_disk_rw fills in the descriptors and sets b->disk
    | Notify(h: nat)             // and makes the chain available
    | Fetch(h: nat)              // the device reads it from the avail ring
    | Carry(h: nat)              // and does the transfer, and puts it on the used ring
    | Settle(h: nat)             // virtio_disk_intr clears b->disk
    | Leave(h: nat)              // virtio_disk_rw goes on and frees the descriptors

  ghost predicate Wanted(w: World, b: BufId) {
    exists h :: h in w.reqs && w.reqs[h].buf == b
  }

  ghost predicate Enabled(w: World, e: Event) {
    match e
    case Edit(b, _) => b in w.data && !Wanted(w, b)
    case Prepare(h, r) =>
      h !in w.reqs && r.phase.Ready? && r.buf in w.data && r.blockno < |w.platter| && !Wanted(w, r.buf)
    case Notify(h) => h in w.reqs && w.reqs[h].phase.Ready?
    case Fetch(h) => h in w.reqs && w.reqs[h].phase.Offered?
    case Carry(h) =>
      h in w.reqs && w.reqs[h].phase.Taken? && w.reqs[h].buf in w.data && w.reqs[h].blockno < |w.platter|
    case Settle(h) => h in w.reqs && w.reqs[h].phase.Used?
    case Leave(h) => h in w.reqs && w.reqs[h].phase.Cleared?
  }

  ghost function Next(w: World, e: Event): World
    requires Enabled(w, e)
  {
    match e
    case Edit(b, x) => w.(data := w.data[b := x])
    case Prepare(h, r) => w.(reqs := w.reqs[h := r], busy := w.busy + {r.buf})
    case Notify(h) => w.(reqs := Moved(w.reqs, h, Offered))
    case Fetch(h) => w.(reqs := Moved(w.reqs, h, Taken))
    case Carry(h) => Transferred(w, w.reqs[h]).(reqs := Moved(w.reqs, h, Used))
    case Settle(h) => w.(reqs := Moved(w.reqs, h, Cleared), busy := w.busy - {w.reqs[h].buf})
    case Leave(h) => w.(reqs := w.reqs - {h})
  }

  /** The transfer a request asks for. */
  function Transferred(w: World, r: Req): World
    requires r.buf in w.data && r.blockno < |w.platter|
  {
    if r.write then w.(platter := w.platter[r.blockno := w.data[r.buf]])
    else w.(data := w.data[r.buf := w.platter[r.blockno]])
  }

  ghost function Exec(w: World, events: seq<Event>): Option<World> {
    if events == [] then Some(w)
    else
      var u := Exec(w, events[..|events| - 1]);
      if u.Some? && Enabled(u.value, events[|events| - 1]) then Some(Next(u.value, events[|events| - 1])) else None
  }

  /** The driver's own part of what happens. */
  ghost function Driver(events: seq<Event>): seq<Event> {
    if events == [] then []
    else
      var e := events[|events| - 1];
      Driver(events[..|events| - 1]) + if e.Fetch? || e.Carry? then [] else [e]
  }

  lemma One(w: World, events: seq<Event>, u: World, e: Event)
    requires Exec(w, events) == Some(u) && Enabled(u, e)
    ensures Exec(w, events + [e]) == Some(Next(u, e))
    ensures Driver(events + [e]) == Driver(events) + if e.Fetch? || e.Carry? then [] else [e]
  {
    assert (events + [e])[..|events|] == events;
  }

  lemma Edited(w: World, events: seq<Event>, u: World, b: BufId, x: Block)
    requires Exec(w, events) == Some(u) && b in u.data && !Wanted(u, b)
    ensures Exec(w, events + [Edit(b, x)]) == Some(u.(data := u.data[b := x]))
    ensures Driver(events + [Edit(b, x)]) == Driver(events) + [Edit(b, x)]
  {
    One(w, events, u, Edit(b, x));
  }

  lemma Prepared(w: World, events: seq<Event>, u: World, h: nat, r: Req)
    requires Exec(w, events) == Some(u) && h !in u.reqs && r.phase.Ready? && r.buf in u.data
    requires r.blockno < |u.platter| && forall g <- u.reqs :: u.reqs[g].buf != r.buf
    ensures Exec(w, events + [Prepare(h, r)]) == Some(u.(reqs := u.reqs[h := r], busy := u.busy + {r.buf}))
    ensures Driver(events + [Prepare(h, r)]) == Driver(events) + [Prepare(h, r)]
  {
    One(w, events, u, Prepare(h, r));
  }

  lemma Notified(w: World, events: seq<Event>, u: World, h: nat)
    requires Exec(w, events) == Some(u) && h in u.reqs && u.reqs[h].phase.Ready?
    ensures Exec(w, events + [Notify(h)]) == Some(u.(reqs := Moved(u.reqs, h, Offered)))
    ensures Driver(events + [Notify(h)]) == Driver(events) + [Notify(h)]
  {
    One(w, events, u, Notify(h));
  }

  lemma Fetched(w: World, events: seq<Event>, u: World, h: nat)
    requires Exec(w, events) == Some(u) && h in u.reqs && u.reqs[h].phase.Offered?
    ensures Exec(w, events + [Fetch(h)]) == Some(u.(reqs := Moved(u.reqs, h, Taken)))
    ensures Driver(events + [Fetch(h)]) == Driver(events)
  {
    One(w, events, u, Fetch(h));
  }

  lemma Carried(w: World, events: seq<Event>, u: World, h: nat)
    requires Exec(w, events) == Some(u) && h in u.reqs && u.reqs[h].phase.Taken?
    requires u.reqs[h].buf in u.data && u.reqs[h].blockno < |u.platter|
    ensures Exec(w, events + [Carry(h)]) == Some(Transferred(u, u.reqs[h]).(reqs := Moved(u.reqs, h, Used)))
    ensures Driver(events + [Carry(h)]) == Driver(events)
  {
    One(w, events, u, Carry(h));
  }

  lemma Settled(w: World, events: seq<Event>, u: World, h: nat)
    requires Exec(w, events) == Some(u) && h in u.reqs && u.reqs[h].phase.Used?
    ensures Exec(w, events + [Settle(h)]) ==
            Some(u.(reqs := Moved(u.reqs, h, Cleared), busy := u.busy - {u.reqs[h].buf}))
    ensures Driver(events + [Settle(h)]) == Driver(events) + [Settle(h)]
  {
    One(w, events, u, Settle(h));
  }

  lemma Left(w: World, events: seq<Event>, u: World, h: nat)
    requires Exec(w, events) == Some(u) && h in u.reqs && u.reqs[h].phase.Cleared?
    ensures Exec(w, events + [Leave(h)]) == Some(u.(reqs := u.reqs - {h}))
    ensures Driver(events + [Leave(h)]) == Driver(events) + [Leave(h)]
  {
    One(w, events, u, Leave(h));
  }

  lemma {:induction false} Split(w: World, a: seq<Event>, b: seq<Event>)
    requires Exec(w, a).Some?
    ensures Exec(w, a + b) == Exec(Exec(w, a).value, b)
  {
    if b == [] {
      assert a + b == a;
    } else {
      var c := b[..|b| - 1];
      Split(w, a, c);
      assert (a + b)[..|a + b| - 1] == a + c;
    }
  }

  lemma {:induction false} DriverSplit(a: seq<Event>, b: seq<Event>)
    ensures Driver(a + b) == Driver(a) + Driver(b)
  {
    if b == [] {
      assert a + b == a;
    } else {
      DriverSplit(a, b[..|b| - 1]);
      assert (a + b)[..|a + b| - 1] == a + b[..|b| - 1];
    }
  }

  lemma {:induction false} Begins(w: World, events: seq<Event>, i: nat)
    requires Exec(w, events).Some? && i <= |events|
    ensures Exec(w, events[..i]).Some?
    decreases |events|
  {
    if i == |events| {
      assert events[..i] == events;
    } else {
      var c := events[..|events| - 1];
      Begins(w, c, i);
      assert c[..i] == events[..i];
    }
  }

  // ---- one request ----

  function Rank(p: Phase): nat {
    match p
    case Ready => 0
    case Offered => 1
    case Taken => 2
    case Used => 3
    case Cleared => 4
  }

  ghost predicate Stays(events: seq<Event>, h: nat) {
    forall e <- events :: e != Leave(h)
  }

  /** Requests under way are for buffers that exist, each for its own. */
  ghost predicate Apart(w: World) {
    && (forall g, h :: g in w.reqs && h in w.reqs && g != h ==> w.reqs[g].buf != w.reqs[h].buf)
    && (forall h <- w.reqs :: w.reqs[h].buf in w.data && w.reqs[h].blockno < |w.platter|)
  }

  lemma NextApart(w: World, e: Event)
    requires Apart(w) && Enabled(w, e)
    ensures Apart(Next(w, e))
  {
    if e.Prepare? { forall g | g in w.reqs ensures w.reqs[g].buf != e.r.buf { } }
  }

  /**
  From w, which has just got request r with head h, the events lead to u, and event i carried r out: it
  alone. A write put the bytes that were in the buffer at the start on the disk, and a read left the
  bytes that were on the disk at that moment in the buffer, where they still are.
  */
  ghost predicate CarriedAt(w: World, events: seq<Event>, u: World, h: nat, r: Req, i: nat) {
    && i < |events| && (forall j :: 0 <= j < |events| ==> (events[j] == Carry(h) <==> j == i))
    && r.buf in w.data && r.buf in u.data
    && Exec(w, events[..i]).Some? && Exec(w, events[..i + 1]).Some?
    && var before, after := Exec(w, events[..i]).value, Exec(w, events[..i + 1]).value;
    && r.blockno < |before.platter|
    && after.platter == (if r.write then before.platter[r.blockno := w.data[r.buf]] else before.platter)
    && u.data[r.buf] == if r.write then w.data[r.buf] else before.platter[r.blockno]
  }

  ghost predicate NotCarried(w: World, events: seq<Event>, u: World, h: nat, r: Req) {
    && (forall e <- events :: e != Carry(h))
    && r.buf in w.data && r.buf in u.data && u.data[r.buf] == w.data[r.buf]
  }

  ghost predicate Under(u: World, h: nat, r: Req) {
    Apart(u) && h in u.reqs && u.reqs[h] == r.(phase := u.reqs[h].phase)
  }

  lemma BufIn(u: World, h: nat, r: Req)
    requires Under(u, h, r)
    ensures r.buf in u.data && r.blockno < |u.platter|
  {
  }

  /** Nothing but its own transfer changes a buffer that a request is under way for. */
  lemma DataKept(u: World, e: Event, h: nat, r: Req)
    requires Under(u, h, r) && Enabled(u, e)
    ensures r.buf in u.data && r.buf in Next(u, e).data
    ensures e != Carry(h) ==> Next(u, e).data[r.buf] == u.data[r.buf]
  {
  }

  lemma UnderKept(u: World, e: Event, h: nat, r: Req)
    requires Under(u, h, r) && Enabled(u, e) && e != Leave(h)
    ensures Under(Next(u, e), h, r)
    ensures Rank(Next(u, e).reqs[h].phase) >= 3 <==> Rank(u.reqs[h].phase) >= 3 || e == Carry(h)
  {
    NextApart(u, e);
    hide Apart;
  }

  /** One more event. */
  lemma NotYet(w: World, events: seq<Event>, u: World, h: nat, r: Req, e: Event)
    requires Exec(w, events) == Some(u) && Under(u, h, r)
    requires NotCarried(w, events, u, h, r) && Enabled(u, e) && e != Carry(h)
    ensures NotCarried(w, events + [e], Next(u, e), h, r)
  {
    DataKept(u, e, h, r);
  }

  lemma Now(w: World, events: seq<Event>, u: World, h: nat, r: Req)
    requires Exec(w, events) == Some(u) && Under(u, h, r)
    requires NotCarried(w, events, u, h, r) && Enabled(u, Carry(h))
    ensures CarriedAt(w, events + [Carry(h)], Next(u, Carry(h)), h, r, |events|)
  {
    BufIn(u, h, r);
    One(w, events, u, Carry(h));
    var all := events + [Carry(h)];
    hide Exec, Apart;
    assert all[..|events|] == events && all[..|events| + 1] == all;
    forall j | 0 <= j < |all| ensures all[j] == Carry(h) <==> j == |events| {
      if j < |events| { assert all[j] == events[j] && events[j] in events; }
    }
  }

  lemma Already(w: World, events: seq<Event>, u: World, h: nat, r: Req, e: Event, i: nat)
    requires Exec(w, events) == Some(u) && Under(u, h, r) && Rank(u.reqs[h].phase) >= 3
    requires CarriedAt(w, events, u, h, r, i) && Enabled(u, e)
    ensures CarriedAt(w, events + [e], Next(u, e), h, r, i)
  {
    DataKept(u, e, h, r);
    assert e != Carry(h);
    hide Exec, Apart, Next;
    assert (events + [e])[..i] == events[..i] && (events + [e])[..i + 1] == events[..i + 1];
  }

  lemma {:induction false} Progress(w: World, events: seq<Event>, h: nat, r: Req)
    requires Under(w, h, r) && Rank(w.reqs[h].phase) < 3 && Exec(w, events).Some? && Stays(events, h)
    ensures var u := Exec(w, events).value;
            && Under(u, h, r)
            && if Rank(u.reqs[h].phase) < 3 then NotCarried(w, events, u, h, r)
               else exists i: nat :: CarriedAt(w, events, u, h, r, i)
  {
    hide Apart, CarriedAt;
    if events == [] {
      BufIn(w, h, r);
    } else {
      var c, e := events[..|events| - 1], events[|events| - 1];
      assert events == c + [e];
      assert forall d <- c :: d in events;
      Progress(w, c, h, r);
      var u := Exec(w, c).value;
      assert e in events;
      UnderKept(u, e, h, r);
      if e == Carry(h) {
        Now(w, c, u, h, r);
      } else if Rank(u.reqs[h].phase) < 3 {
        NotYet(w, c, u, h, r, e);
      } else {
        var i: nat :| CarriedAt(w, c, u, h, r, i);
        Already(w, c, u, h, r, e, i);
      }
    }
  }

  /** The request has been carried out exactly once, as asked. */
  ghost predicate Answered(w: World, events: seq<Event>, u: World, h: nat, r: Req) {
    exists i: nat :: CarriedAt(w, events, u, h, r, i)
  }

  lemma PreparedUnder(w: World, h: nat, r: Req)
    requires Apart(w) && Enabled(w, Prepare(h, r))
    ensures var s := Next(w, Prepare(h, r)); Under(s, h, r) && Rank(s.reqs[h].phase) < 3
  {
    NextApart(w, Prepare(h, r));
    hide Apart;
  }

  /** Whatever else happens in between, a request that virtio_disk_rw starts and comes back from is answered. */
  lemma RequestDone(w: World, events: seq<Event>, h: nat, r: Req)
    requires Apart(w) && Enabled(w, Prepare(h, r)) && Stays(events, h)
    requires var u := Exec(Next(w, Prepare(h, r)), events); u.Some? && Enabled(u.value, Leave(h))
    ensures var s := Next(w, Prepare(h, r)); Answered(s, events, Exec(s, events).value, h, r)
  {
    hide CarriedAt, Apart, Next, Exec, Stays;
    PreparedUnder(w, h, r);
    Progress(Next(w, Prepare(h, r)), events, h, r);
  }

  lemma {:induction false} ExecApart(w: World, events: seq<Event>)
    requires Apart(w) && Exec(w, events).Some?
    ensures Apart(Exec(w, events).value)
  {
    if events != [] {
      hide Apart;
      ExecApart(w, events[..|events| - 1]);
      NextApart(Exec(w, events[..|events| - 1]).value, events[|events| - 1]);
    }
  }

  /** The same within any run that starts with nothing under way: event i prepares the request, event j ends it. */
  lemma Served(w: World, events: seq<Event>, i: nat, j: nat, h: nat, r: Req)
    requires w.reqs == map[] && Exec(w, events).Some? && i < j < |events|
    requires events[i] == Prepare(h, r) && events[j] == Leave(h) && Stays(events[i + 1..j], h)
    ensures Exec(w, events[..i + 1]).Some? && Exec(w, events[..j]).Some?
    ensures Answered(Exec(w, events[..i + 1]).value, events[i + 1..j], Exec(w, events[..j]).value, h, r)
  {
    hide Apart, Answered, Enabled, Next, Stays, Exec;
    Ends(w, events, i);
    Ends(w, events, j);
    Middle(events, i, j);
    ServedIn(w, events[..i], events[..i + 1], events[i + 1..j], events[..j], h, r);
  }

  lemma Middle(events: seq<Event>, i: nat, j: nat)
    requires i < j < |events|
    ensures events[..j] == events[..i + 1] + events[i + 1..j]
  {
  }

  lemma ServedIn(w: World, a: seq<Event>, b: seq<Event>, c: seq<Event>, d: seq<Event>, h: nat, r: Req)
    requires w.reqs == map[] && Exec(w, a).Some? && Enabled(Exec(w, a).value, Prepare(h, r)) && Stays(c, h)
    requires Exec(w, b) == Some(Next(Exec(w, a).value, Prepare(h, r)))
    requires d == b + c && Exec(w, d).Some? && Enabled(Exec(w, d).value, Leave(h))
    ensures Answered(Exec(w, b).value, c, Exec(w, d).value, h, r)
  {
    assert Apart(w);
    hide Apart, Answered, Enabled, Next, Stays, Exec;
    ExecApart(w, a);
    Split(w, b, c);
    RequestDone(Exec(w, a).value, c, h, r);
  }

  lemma Ends(w: World, events: seq<Event>, i: nat)
    requires Exec(w, events).Some? && i < |events|
    ensures Exec(w, events[..i]).Some? && Enabled(Exec(w, events[..i]).value, events[i])
    ensures Exec(w, events[..i + 1]) == Some(Next(Exec(w, events[..i]).value, events[i]))
  {
    Begins(w, events, i + 1);
    assert events[..i + 1][..i] == events[..i];
  }
}
