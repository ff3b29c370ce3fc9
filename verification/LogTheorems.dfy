/** What the log promises, over whole runs: consequences of LogSafety.RunRefines. */
module LogTheorems {
  import opened Wrappers
  import opened LogMachine
  import opened LogSafety

  /** A machine about to be booted from a disk with a well-formed log header. */
  ghost predicate Fresh(l: Layout, s: State) {
    && Wf(l, s)
    && s == State(s.disk, map[], map[], {}, [], map[], ReadHead)
    && GoodHead(l, s.disk[l.start])
  }

  ghost function HomeContents(l: Layout, disk: seq<Block>): map<nat, Block>
    requires |disk| == l.blocks
  {
    map b: nat | b < l.blocks && l.Home(b) :: disk[b]
  }

  /** The block as the log has it, if the log has it; otherwise as it is in its place. */
  ghost function Replayed(l: Layout, disk: seq<Block>, b: nat): Block
    requires l.Valid() && |disk| == l.blocks && GoodHead(l, disk[l.start]) && l.Home(b)
  {
    var lh := HeadEntries(disk[l.start]);
    if b in lh then var i :| 0 <= i < |lh| && lh[i] == b; disk[l.Slot(i)] else disk[b]
  }

  ghost function Initially(l: Layout, disk: seq<Block>): Abs
    requires l.Valid() && |disk| == l.blocks && GoodHead(l, disk[l.start])
  {
    var m := map b: nat | b < l.blocks && l.Home(b) :: Replayed(l, disk, b);
    Abs(m, m, 0)
  }

  lemma FreshIsGood(l: Layout, s: State)
    requires Fresh(l, s)
    ensures Good(l, s, Initially(l, s.disk))
  {
    ReplayedIs(l, s.disk);
  }

  lemma ReplayedIs(l: Layout, disk: seq<Block>)
    requires l.Valid() && |disk| == l.blocks && GoodHead(l, disk[l.start])
    ensures (forall b :: b in Initially(l, disk).durable <==> l.Home(b))
    ensures Recoverable(l, disk, Initially(l, disk).durable)
  {
    var lh := HeadEntries(disk[l.start]);
    forall i | 0 <= i < |lh| ensures Replayed(l, disk, lh[i]) == disk[l.Slot(i)] {
      var k :| 0 <= k < |lh| && lh[k] == lh[i] && Replayed(l, disk, lh[i]) == disk[l.Slot(k)];
      assert k == i;
    }
  }

  lemma {:induction false} ExecConcat(l: Layout, s: State, es: seq<Event>, fs: seq<Event>)
    requires Wf(l, s)
    ensures Exec(l, s, es).None? ==> Exec(l, s, es + fs).None?
    ensures Exec(l, s, es).Some? ==> Exec(l, s, es + fs) == Exec(l, Exec(l, s, es).value, fs)
    decreases |fs|
  {
    if fs == [] {
      assert es + fs == es;
    } else {
      assert (es + fs)[..|es + fs| - 1] == es + fs[..|fs| - 1];
      ExecConcat(l, s, es, fs[..|fs| - 1]);
    }
  }

  lemma Extend(l: Layout, s: State, es: seq<Event>, mid: State, e: Event)
    requires Wf(l, s) && Exec(l, s, es) == Some(mid)
    ensures Exec(l, s, es + [e]) == Next(l, mid, e)
  {
    assert (es + [e])[..|es|] == es;
  }

  lemma {:induction false} AbsExecConcat(a: Abs, es: seq<Event>, fs: seq<Event>)
    ensures AbsExec(a, es + fs) == AbsExec(AbsExec(a, es), fs)
    decreases |fs|
  {
    if fs == [] {
      assert es + fs == es;
    } else {
      assert (es + fs)[..|es + fs| - 1] == es + fs[..|fs| - 1];
      AbsExecConcat(a, es, fs[..|fs| - 1]);
    }
  }

  // ---- crash atomicity ----

  ghost predicate NoLogWrite(es: seq<Event>) {
    forall e :: e in es ==> !e.LogWrite?
  }

  /** Without log_write or a crash, the durable contents move only to the current ones. */
  lemma {:induction false} QuietAbs(a: Abs, es: seq<Event>)
    requires NoLogWrite(es) && Crash !in es
    ensures AbsExec(a, es).current == a.current
    ensures AbsExec(a, es).durable == if CommitPoint in es then a.current else a.durable
  {
    if es != [] {
      assert es == es[..|es| - 1] + [es[|es| - 1]];
      QuietAbs(a, es[..|es| - 1]);
    }
  }

  lemma {:induction false} RecoveredAbs(a: Abs, es: seq<Event>)
    requires NoLogWrite(es) && a.current == a.durable
    ensures AbsExec(a, es).current == AbsExec(a, es).durable == a.durable
  {
    if es != [] {
      assert es == es[..|es| - 1] + [es[|es| - 1]];
      RecoveredAbs(a, es[..|es| - 1]);
    }
  }

  lemma CrashAbs(a: Abs, before: seq<Event>, after: seq<Event>)
    requires NoLogWrite(before) && Crash !in before && NoLogWrite(after)
    ensures var r := AbsExec(a, before + [Crash] + after);
            r.current == r.durable == if CommitPoint in before then a.current else a.durable
  {
    AbsExecConcat(a, before + [Crash], after);
    assert (before + [Crash])[..|before|] == before;
    QuietAbs(a, before);
    RecoveredAbs(AbsExec(a, before + [Crash]), after);
  }

  /**
  Crash atomicity. Start anywhere (s), run commit steps, reads and evictions (before), lose
  power, and go on without log_write (after) through any number of further crashes and
  partial recoveries until the machine is past recovery. Every home block then reads as of
  the last log_write before the crash if the header write landed, and otherwise as of the
  previous commit point; never a mixture.
  */
  lemma CrashAtomicity(l: Layout, s: State, a: Abs, before: seq<Event>, after: seq<Event>, s': State)
    requires Good(l, s, a)
    requires NoLogWrite(before) && Crash !in before && NoLogWrite(after)
    requires Exec(l, s, before + [Crash] + after) == Some(s') && !s'.phase.Booting()
    ensures forall b: nat :: l.Home(b) && b !in s'.dirty ==>
              Cached(s', b) == if CommitPoint in before then a.current[b] else a.durable[b]
  {
    assert Refines(l, s', AbsExec(a, before + [Crash] + after)) by {
      RunRefines(l, s, a, before + [Crash] + after);
    }
    CrashAbs(a, before, after);
  }

  /** The disk writes of one recovery from a header naming n blocks. */
  function RecoveryEvents(n: nat): seq<Event> {
    [ReadHeader] + seq(n, _ => InstallOne) + [Erase]
  }

  lemma {:induction false} ReinstallRuns(l: Layout, s: State, a: Abs, n: nat)
    requires Good(l, s, a) && s.phase == Reinstall(0) && n <= |s.lh|
    ensures var r := Exec(l, s, seq(n, _ => InstallOne));
            r.Some? && r.value.phase == Reinstall(n) && r.value.lh == s.lh
    decreases n
  {
    hide Good, Next;
    GoodIsWf(l, s, a);
    if n > 0 {
      var es := seq(n, _ => InstallOne);
      assert es[..n - 1] == seq(n - 1, _ => InstallOne);
      ReinstallRuns(l, s, a, n - 1);
      RunRefines(l, s, a, es[..n - 1]);
      InstallGoes(l, Exec(l, s, es[..n - 1]).value, AbsExec(a, es[..n - 1]));
    }
  }

  lemma InstallGoes(l: Layout, s: State, a: Abs)
    requires Good(l, s, a) && s.phase.Reinstall? && s.phase.tail < |s.lh|
    ensures Wf(l, s)
    ensures var r := Next(l, s, InstallOne);
            r.Some? && r.value.phase == Reinstall(s.phase.tail + 1) && r.value.lh == s.lh
  {
    hide OnDisk, Refines, GoodEntries;
    GoodIsWf(l, s, a);
  }

  lemma BootRuns(l: Layout, s: State, a: Abs) returns (s2: State)
    requires Good(l, s, a)
    ensures Exec(l, s, [Crash, ReadHeader]) == Some(s2)
    ensures s2.phase == Reinstall(0) && |s2.lh| == s.disk[l.start][0]
  {
    var s1 := State(s.disk, map[], map[], {}, [], map[], ReadHead);
    assert Exec(l, s, []) == Some(s);
    Extend(l, s, [], s, Crash);
    Extend(l, s, [Crash], s1, ReadHeader);
    assert [Crash] + [ReadHeader] == [Crash, ReadHeader];
    s2 := Next(l, s1, ReadHeader).value;
  }

  lemma EraseLeavesHomes(l: Layout, s: State, a: Abs)
    requires Good(l, s, a) && s.phase == Reinstall(|s.lh|)
    ensures var r := Next(l, s, Erase);
            && r.Some? && r.value.phase == Idle && r.value.disk[l.start][0] == 0
            && HomeContents(l, r.value.disk) == a.durable
  {
    AllInstalled(l, s, a);
    HeadRoundTrip(Cached(s, l.start), []);
  }

  /** The run from a crash up to the last installed block. */
  lemma RecoveryUpToErase(l: Layout, s: State, a: Abs) returns (s3: State)
    requires Good(l, s, a)
    ensures var es := [Crash, ReadHeader] + seq(s.disk[l.start][0], _ => InstallOne);
            && Exec(l, s, es) == Some(s3)
            && s3.phase == Reinstall(|s3.lh|)
            && Good(l, s3, AbsExec(a, es)) && AbsExec(a, es).durable == a.durable
  {
    hide Good, Next, HomeContents, AbsExec, Exec;
    GoodIsWf(l, s, a);
    var n := s.disk[l.start][0];
    var installs := seq(n, _ => InstallOne);
    var boot := [Crash, ReadHeader];
    var s2 := BootRuns(l, s, a);
    assert Good(l, s2, AbsExec(a, boot)) by { RunRefines(l, s, a, boot); }
    ReinstallRuns(l, s2, AbsExec(a, boot), n);
    ExecConcat(l, s, boot, installs);
    s3 := Exec(l, s2, installs).value;
    assert Good(l, s3, AbsExec(a, boot + installs)) by { RunRefines(l, s, a, boot + installs); }
    assert boot + installs == [] + [Crash] + ([ReadHeader] + installs);
    CrashAbs(a, [], [ReadHeader] + installs);
  }

  /** Recovery never gets stuck, and leaves an empty log and exactly the durable contents on disk. */
  lemma RecoveryRuns(l: Layout, s: State, a: Abs)
    requires Good(l, s, a)
    ensures var r := Exec(l, s, [Crash] + RecoveryEvents(s.disk[l.start][0]));
            && r.Some? && r.value.phase == Idle
            && r.value.disk[l.start][0] == 0
            && HomeContents(l, r.value.disk) == a.durable
  {
    hide Good, Next, HomeContents, AbsExec;
    GoodIsWf(l, s, a);
    var s3 := RecoveryUpToErase(l, s, a);
    var es := [Crash, ReadHeader] + seq(s.disk[l.start][0], _ => InstallOne);
    EraseLeavesHomes(l, s3, AbsExec(a, es));
    Extend(l, s, es, s3, Erase);
    assert es + [Erase] == [Crash] + RecoveryEvents(s.disk[l.start][0]);
  }

  /**
  What a committed group looks like on the disk: word 0 of block start counts it, word 1 + i names its i-th block,
  and block start + 1 + i has what that block was last logged with.
  */
  lemma GroupOnDisk(l: Layout, s: State, a: Abs, es: seq<Event>, s': State)
    requires Good(l, s, a) && Exec(l, s, es).Some? && Next(l, Exec(l, s, es).value, CommitPoint) == Some(s')
    ensures var lh := s'.lh; var head := s'.disk[l.start];
      && 0 < |lh| == head[0] < l.size
      && forall i :: 0 <= i < |lh| ==>
           && head[1 + i] == lh[i] && lh[i] in AbsExec(a, es).current
           && s'.disk[l.start + 1 + i] == AbsExec(a, es).current[lh[i]]
  {
    hide AbsExec, Exec, Good, Next;
    GoodIsWf(l, s, a);
    RunRefines(l, s, a, es);
    var t, b := Exec(l, s, es).value, AbsExec(a, es);
    GoodIsWf(l, t, b);
    Headed(l, t, s');
    forall i | 0 <= i < |t.lh|
      ensures t.lh[i] in b.current && s'.disk[l.start + 1 + i] == b.current[t.lh[i]]
    {
      SlotFilled(l, t, b, s', i);
    }
  }

  lemma Headed(l: Layout, t: State, t': State)
    requires Wf(l, t) && Next(l, t, CommitPoint) == Some(t')
    ensures t'.lh == t.lh != [] && t.phase == CopyToLog(|t.lh|) && |t'.disk| == |t.disk| == l.blocks
    ensures t'.disk[l.start][0] == |t.lh| < l.size
    ensures forall i :: 0 <= i < |t.lh| ==> t'.disk[l.start][1 + i] == t.lh[i]
    ensures forall b :: 0 <= b < l.blocks && b != l.start ==> t'.disk[b] == t.disk[b]
  {
    hide GoodEntries;
    Fits(l, t.lh);
  }

  lemma Fits(l: Layout, lh: seq<nat>)
    requires l.Valid() && GoodEntries(l, lh)
    ensures |lh| <= LOGSIZE && |lh| < l.size
  {
  }

  lemma NoneDirty(l: Layout, t: State)
    requires Inv(l, t) && t.phase.CopyToLog?
    ensures t.dirty == {}
  {
    hide OnDisk;
  }

  lemma SlotFilled(l: Layout, t: State, a: Abs, t': State, i: nat)
    requires Good(l, t, a) && t.phase == CopyToLog(|t.lh|) && i < |t.lh| < l.size && |t'.disk| == l.blocks
    requires forall b :: 0 <= b < l.blocks && b != l.start ==> t'.disk[b] == t.disk[b]
    ensures t.lh[i] in a.current && l.start + 1 + i < l.blocks && t'.disk[l.start + 1 + i] == a.current[t.lh[i]]
  {
    hide Recoverable, HeadEntries, Buffers;
    var b := t.lh[i];
    assert b in Pinned(t) && l.Home(b);
    assert t.disk[l.Slot(i)] == Cached(t, b);
    NoneDirty(l, t);
  }

  // ---- operations and groups ----

  lemma OperationGoesOn(l: Layout, s: State, p: Proc, e: Event)
    requires Inv(l, s) && p in s.ops && e != End(p) && e != Crash && Next(l, s, e).Some?
    ensures e != CommitPoint && p in Next(l, s, e).value.ops
  {
  }

  /** No commit point falls inside an operation, so its log_writes all belong to one group. */
  lemma {:induction false} OperationInOneGroup(l: Layout, s: State, a: Abs, es: seq<Event>, p: Proc)
    requires Good(l, s, a) && p in s.ops
    requires End(p) !in es && Crash !in es
    requires Exec(l, s, es).Some?
    ensures p in Exec(l, s, es).value.ops
    ensures CommitPoint !in es
    ensures AbsExec(a, es).group == a.group
    decreases |es|
  {
    if es != [] {
      var front := es[..|es| - 1];
      var e := es[|es| - 1];
      assert es == front + [e];
      OperationInOneGroup(l, s, a, front, p);
      assert Inv(l, Exec(l, s, front).value) by { RunRefines(l, s, a, front); }
      OperationGoesOn(l, Exec(l, s, front).value, p, e);
    }
  }

  // ---- the cache as a block map ----

  /** bread returns what was last logged, installed or not, in every run. */
  lemma BreadReturnsLastLogged(l: Layout, s0: State, a: Abs, es: seq<Event>, p: Proc, b: nat)
    requires Good(l, s0, a) && Exec(l, s0, es).Some?
    requires Next(l, Exec(l, s0, es).value, Acquire(p, b)).Some?
    ensures var s := Next(l, Exec(l, s0, es).value, Acquire(p, b)).value;
            && b in AbsExec(a, es).current && b in s.cache && l.Home(b)
            && s.cache[b] == AbsExec(a, es).current[b]
  {
    RunRefines(l, s0, a, es);
  }

  /** A buffer that is neither locked nor pinned holds exactly the disk block, in every run. */
  lemma UnpinnedIsClean(l: Layout, s0: State, a: Abs, es: seq<Event>, b: nat)
    requires Good(l, s0, a) && Exec(l, s0, es).Some?
    requires b in Exec(l, s0, es).value.cache
    requires b !in Exec(l, s0, es).value.held && b !in Pinned(Exec(l, s0, es).value)
    ensures b < l.blocks && Exec(l, s0, es).value.cache[b] == Exec(l, s0, es).value.disk[b]
  {
    RunRefines(l, s0, a, es);
  }
}
