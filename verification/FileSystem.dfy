/** balloc, bfree, bmap, itrunc, readi and writei of kernel/fs.c over the blocks and the inodes. */
module FileSystem {
  import opened Wrappers
  import opened DiskBlocks
  import opened FileBlocks

  /** content with src written over it from off on. */
  function Spliced(content: seq<Byte>, off: nat, src: seq<Byte>): seq<Byte>
    requires off <= |content|
  {
    content[..off] + src + if off + |src| < |content| then content[off + |src|..] else []
  }

  /** What a read of n bytes at off is to return. */
  function ToRead(fs: Fs, i: nat, off: nat, n: nat): seq<Byte>
    requires i < |fs.inodes| && |fs.inodes[i].addrs| == NDIRECT + 1 && fs.inodes[i].size <= MAXFILE * BSIZE
  {
    var content := Content(fs, i);
    if off > |content| || off + n >= UINT then []
    else if off + n > |content| then content[off..]
    else content[off..off + n]
  }

  lemma ToReadIs(fs: Fs, i: nat, off: nat, n: nat)
    requires i < |fs.inodes| && |fs.inodes[i].addrs| == NDIRECT + 1 && fs.inodes[i].size <= MAXFILE * BSIZE
    ensures |Content(fs, i)| == fs.inodes[i].size
    ensures if off > fs.inodes[i].size || off + n >= UINT then ToRead(fs, i, off, n) == []
            else var want := if off + n > fs.inodes[i].size then fs.inodes[i].size - off else n;
                 ToRead(fs, i, off, n) == Content(fs, i)[off..off + want]
  {
    hide FileByte;
  }

  /**
  Of copied bytes, n are reported. The file has just those n new bytes if and only if the others fall beyond its
  end, or are what was there already.
  */
  lemma UnreportedBytes(content: seq<Byte>, off: nat, src: seq<Byte>, n: nat, copied: nat)
    requires off <= |content| && n <= copied <= |src|
    ensures Max(|content|, off + n) <= |Spliced(content, off, src[..copied])|
    ensures Spliced(content, off, src[..copied])[..Max(|content|, off + n)] == Spliced(content, off, src[..n]) <==>
            forall k :: n <= k < copied && off + k < |content| ==> content[off + k] == src[k]
  {
    var a, b := Spliced(content, off, src[..copied])[..Max(|content|, off + n)], Spliced(content, off, src[..n]);
    assert |a| == |b|;
    forall k | 0 <= k < |a|
      ensures a[k] == (if off <= k < off + copied then src[k - off] else content[k])
      ensures b[k] == if off <= k < off + n then src[k - off] else content[k]
    {
    }
    if a == b {
      forall k | n <= k < copied && off + k < |content| ensures content[off + k] == src[k] {
        assert a[off + k] == b[off + k];
      }
    }
  }

  ghost predicate AllMarked(fs: Fs)
    requires Layout(fs)
  {
    forall b: nat :: b < fs.sb.size ==> BitmapBlock(fs.sb, b) < |fs.blocks| && Bit(fs, b)
  }

  // ---- the steps of bmap ----

  lemma SlotSetExtended(a: Fs, b: Fs, c: Fs, i: nat, s: nat, bn: nat, x: nat)
    requires Layout(a) && InRange(a) && Apart(a) && i < |a.inodes| && s < NSLOT && bn < MAXFILE
    requires (s == NDIRECT || s == FileSlot(bn))
    requires IsData(a, x) && x != 0 && !Owned(a, x) && Slot(a, i, FileSlot(bn)) == 0
    requires SameShape(a, b) && SameSlots(a, b)
    requires (forall y: nat :: IsData(a, y) && y != x ==> b.blocks[y] == a.blocks[y])
    requires SameShape(b, c) && SlotSet(b, c, i, s)
    requires (forall y: nat :: IsData(a, y) && !IsIndirect(a, i, y) ==> c.blocks[y] == b.blocks[y])
    ensures Extended(a, c, i, bn)
  {
    hide Slot, SameBits;
    forall j, t | 0 <= j < |a.inodes| && 0 <= t < NSLOT && t != NDIRECT && IsData(a, Slot(a, j, t))
      ensures c.blocks[Slot(a, j, t)] == a.blocks[Slot(a, j, t)]
    {
      DataSlot(a, i, j, t);
      OwnedAt(a, j, t);
    }
  }

  predicate IsIndirect(fs: Fs, i: nat, y: nat)
    requires i < |fs.inodes| && |fs.inodes[i].addrs| == NDIRECT + 1
  {
    y == fs.inodes[i].addrs[NDIRECT] != 0
  }

  lemma DataSlot(fs: Fs, i: nat, j: nat, t: nat)
    requires Layout(fs) && Apart(fs) && i < |fs.inodes| && j < |fs.inodes| && t < NSLOT && t != NDIRECT
    ensures !IsIndirect(fs, i, Slot(fs, j, t))
  {
    assert SlotsApart(fs, i, NDIRECT, j, t);
  }

  lemma OwnedAt(fs: Fs, j: nat, t: nat)
    requires Layout(fs) && j < |fs.inodes| && t < NSLOT && Slot(fs, j, t) != 0
    ensures Owned(fs, Slot(fs, j, t))
  {
  }

  lemma ExtendedSame(fs: Fs, i: nat, bn: nat)
    requires Layout(fs) && i < |fs.inodes| && bn < MAXFILE
    ensures Extended(fs, fs, i, bn)
  {
    hide Slot;
  }

  lemma ExtendedOn(a: Fs, b: Fs, c: Fs, i: nat, bn: nat)
    requires Extended(a, b, i, bn) && Extended(b, c, i, bn) && Slot(a, i, FileSlot(bn)) == 0
    requires forall x: nat :: IsData(a, x) ==> IsData(b, x)
    ensures Extended(a, c, i, bn)
  {
    hide Slot;
    forall j, s | 0 <= j < |a.inodes| && 0 <= s < NSLOT && s != NDIRECT && IsData(a, Slot(a, j, s))
      ensures c.blocks[Slot(a, j, s)] == a.blocks[Slot(a, j, s)]
    {
      if j != i || s != FileSlot(bn) { assert Slot(b, j, s) == Slot(a, j, s); }
    }
  }

  lemma AttachDirect(a: Fs, i: nat, bn: nat, x: nat)
    requires Good(a, {}, {}) && i < |a.inodes| && bn < NDIRECT && Slot(a, i, bn) == 0
    requires IsData(a, x) && x != 0 && !Owned(a, x) && BitmapBlock(a.sb, x) < |a.blocks|
    ensures var c := SetAddr(Alloc(a, x), i, bn, x);
      Good(c, {}, {}) && Extended(a, c, i, bn) && Slot(c, i, bn) == x && c.blocks[x] == Zero()
  {
    hide Slot, Bit, Owned, Marked, InRange, Apart, KeptData, Alloc, SlotSet, Extended;
    AllocFacts(a, x);
    AllocGood(a, x, {});
    var b := Alloc(a, x);
    var c := SetAddr(b, i, bn, x);
    SetAddrDirect(b, i, bn, x);
    SameSlotsAt(a, b, i, bn);
    SlotSetLayout(b, c, i, bn);
    AttachGood(b, c, i, bn, {} + {x});
    SlotSetExtended(a, b, c, i, bn, bn, x);
  }

  lemma AttachIndirect(a: Fs, i: nat, bn: nat, x: nat)
    requires Good(a, {}, {}) && i < |a.inodes| && NDIRECT <= bn < MAXFILE && a.inodes[i].addrs[NDIRECT] == 0
    requires IsData(a, x) && x != 0 && !Owned(a, x) && BitmapBlock(a.sb, x) < |a.blocks|
    ensures var c := SetAddr(Alloc(a, x), i, NDIRECT, x);
      && Good(c, {}, {}) && Extended(a, c, i, bn) && c.inodes[i].addrs[NDIRECT] == x
      && IsData(c, x) && Slot(a, i, FileSlot(bn)) == 0 && Slot(c, i, FileSlot(bn)) == 0
  {
    NoIndirect(a, i, FileSlot(bn));
    IndirectIs(a, i);
    hide Slot, Bit, Owned, Marked, InRange, Apart, KeptData, Alloc, SlotSet, Extended;
    AllocFacts(a, x);
    AllocGood(a, x, {});
    var b := Alloc(a, x);
    var c := SetAddr(b, i, NDIRECT, x);
    SetAddrIndirect(b, i, x);
    SameSlotsAt(a, b, i, NDIRECT);
    SlotSetLayout(b, c, i, NDIRECT);
    AttachGood(b, c, i, NDIRECT, {} + {x});
    SlotSetExtended(a, b, c, i, NDIRECT, bn, x);
    SameSlotsAt(a, b, i, FileSlot(bn));
    SlotSetAt(b, c, i, NDIRECT, FileSlot(bn));
  }

  lemma AttachEntry(a: Fs, i: nat, j: nat, x: nat)
    requires Good(a, {}, {}) && i < |a.inodes| && j < NINDIRECT && IsData(a, a.inodes[i].addrs[NDIRECT])
    requires Slot(a, i, NDIRECT + 1 + j) == 0 && a.inodes[i].addrs[NDIRECT] != 0
    requires IsData(a, x) && x != 0 && !Owned(a, x) && BitmapBlock(a.sb, x) < |a.blocks| && x < UINT
    ensures x != a.inodes[i].addrs[NDIRECT]
    ensures var d := a.inodes[i].addrs[NDIRECT];
      var c := SetBlock(Alloc(a, x), d, PutWord(a.blocks[d], j, x));
      Good(c, {}, {}) && Extended(a, c, i, NDIRECT + j) && Slot(c, i, NDIRECT + 1 + j) == x && c.blocks[x] == Zero()
  {
    IndirectIs(a, i);
    OwnedAt(a, i, NDIRECT);
    hide Slot, Bit, Owned, Marked, InRange, Apart, KeptData, Alloc, SlotSet, Extended, PutWord;
    AllocFacts(a, x);
    AllocGood(a, x, {});
    var d := a.inodes[i].addrs[NDIRECT];
    var b := Alloc(a, x);
    var c := SetEntry(b, i, j, x);
    SetEntrySlots(b, i, j, x);
    SameSlotsAt(a, b, i, NDIRECT + 1 + j);
    SlotSetLayout(b, c, i, NDIRECT + 1 + j);
    AttachGood(b, c, i, NDIRECT + 1 + j, {} + {x});
    SlotSetExtended(a, b, c, i, NDIRECT + 1 + j, NDIRECT + j, x);
  }

  lemma IndirectIs(fs: Fs, i: nat)
    requires Layout(fs) && i < |fs.inodes|
    ensures Slot(fs, i, NDIRECT) == fs.inodes[i].addrs[NDIRECT]
  {
  }

  lemma NoIndirect(fs: Fs, i: nat, s: nat)
    requires Layout(fs) && i < |fs.inodes| && NDIRECT < s < NSLOT && fs.inodes[i].addrs[NDIRECT] == 0
    ensures Slot(fs, i, s) == 0
  {
  }

  lemma SameSlotsAt(a: Fs, b: Fs, i: nat, s: nat)
    requires SameSlots(a, b) && i < |a.inodes| && s < NSLOT
    ensures Slot(b, i, s) == Slot(a, i, s)
  {
  }

  lemma SlotSetAt(a: Fs, b: Fs, i: nat, s: nat, t: nat)
    requires SlotSet(a, b, i, s) && t < NSLOT && t != s
    ensures Slot(b, i, t) == Slot(a, i, t)
  {
  }

  lemma SlotSetLayout(a: Fs, b: Fs, i: nat, s: nat)
    requires SlotSet(a, b, i, s)
    ensures Layout(b) && a.sb == b.sb && |a.inodes| == |b.inodes|
  {
  }

  // ---- the steps of readi and writei ----

  /** Bytes off .. off + m, which do not cross a block boundary. */
  lemma WithinBlock(off: nat, m: nat, k: nat)
    requires m <= BSIZE - off % BSIZE && off <= k < off + m
    ensures k / BSIZE == off / BSIZE && k % BSIZE == off % BSIZE + (k - off)
  {
    assert k == off / BSIZE * BSIZE + (off % BSIZE + (k - off));
  }

  /** The part of a file that lies in one block. */
  lemma ReadPiece(fs: Fs, i: nat, off: nat, m: nat)
    requires Layout(fs) && i < |fs.inodes| && fs.inodes[i].size <= MAXFILE * BSIZE
    requires m <= BSIZE - off % BSIZE && off + m <= fs.inodes[i].size && off < MAXFILE * BSIZE
    requires IsData(fs, Slot(fs, i, FileSlot(off / BSIZE)))
    ensures fs.blocks[Slot(fs, i, FileSlot(off / BSIZE))][off % BSIZE..off % BSIZE + m] == Content(fs, i)[off..off + m]
  {
    hide Slot;
    forall k | off <= k < off + m
      ensures fs.blocks[Slot(fs, i, FileSlot(off / BSIZE))][off % BSIZE + (k - off)] == Content(fs, i)[k]
    {
      WithinBlock(off, m, k);
    }
  }

  function Overwritten(d: Block, at: nat, src: seq<Byte>): Block
    requires at + |src| <= BSIZE
  {
    d[..at] + src + d[at + |src|..]
  }

  /** Writing into one block of file i: that block's part of the file, and nothing else, changes. */
  lemma WritePiece(fs: Fs, i: nat, off: nat, src: seq<Byte>)
    requires Good(fs, {}, {}) && i < |fs.inodes| && off < MAXFILE * BSIZE && |src| <= BSIZE - off % BSIZE
    requires off + |src| <= MAXFILE * BSIZE && Slot(fs, i, FileSlot(off / BSIZE)) != 0
    ensures
      var x := Slot(fs, i, FileSlot(off / BSIZE));
      x < |fs.blocks| &&
      var r := SetBlock(fs, x, Overwritten(fs.blocks[x], off % BSIZE, src));
      && Good(r, {}, {}) && SameSlots(fs, r) && r.inodes == fs.inodes
      && (forall j: nat :: j < |fs.inodes| && j != i ==> Untouched(fs, r, j))
      && forall k: nat :: k < MAXFILE * BSIZE ==>
           FileByte(r, i, k) == if off <= k < off + |src| then src[k - off] else FileByte(fs, i, k)
  {
    hide Slot, Bit, Marked, Owned;
    var s := FileSlot(off / BSIZE);
    var x := Slot(fs, i, s);
    SlotInRange(fs, i, s);
    NotAnIndirect(fs, i, s);
    var r := SetBlock(fs, x, Overwritten(fs.blocks[x], off % BSIZE, src));
    DataWriteSlots(fs, x, Overwritten(fs.blocks[x], off % BSIZE, src));
    SameBitsGood(fs, r);
    forall j: nat | j < |fs.inodes| && j != i ensures Untouched(fs, r, j) { OthersUntouched(fs, r, i, s, j); }
    forall k: nat | k < MAXFILE * BSIZE
      ensures FileByte(r, i, k) == if off <= k < off + |src| then src[k - off] else FileByte(fs, i, k)
    {
      PieceByte(fs, r, i, off, src, k);
    }
  }

  lemma OthersUntouched(a: Fs, b: Fs, i: nat, s: nat, j: nat)
    requires Layout(a) && Apart(a) && SameSlots(a, b) && b.inodes == a.inodes && i < |a.inodes| && s < NSLOT
    requires j < |a.inodes| && j != i
    requires Slot(a, i, s) != 0 && forall y: nat :: IsData(a, y) && y != Slot(a, i, s) ==> b.blocks[y] == a.blocks[y]
    ensures Untouched(a, b, j)
  {
    hide Slot;
    forall t | 0 <= t < NSLOT
      ensures Slot(b, j, t) == Slot(a, j, t)
      ensures t != NDIRECT && IsData(a, Slot(a, j, t)) ==> b.blocks[Slot(a, j, t)] == a.blocks[Slot(a, j, t)]
    {
      assert SlotsApart(a, i, s, j, t);
    }
  }

  lemma NotAnIndirect(fs: Fs, i: nat, s: nat)
    requires Layout(fs) && Apart(fs) && i < |fs.inodes| && s < NSLOT && s != NDIRECT && Slot(fs, i, s) != 0
    ensures NotIndirect(fs, Slot(fs, i, s))
  {
    forall j | 0 <= j < |fs.inodes| ensures fs.inodes[j].addrs[NDIRECT] != Slot(fs, i, s) {
      assert SlotsApart(fs, j, NDIRECT, i, s);
    }
  }

  lemma SameBitsGood(a: Fs, b: Fs)
    requires Good(a, {}, {}) && SameSlots(a, b) && SameBits(a, b)
    ensures Good(b, {}, {})
  {
    hide Slot, Bit, Owned, InRange, Apart, SameSlots, BitmapBlock;
    SameSlotsLayout(a, b);
    SameSlotsGood(a, b);
    SameSlotsOwned(a, b);
    forall c: nat | c < b.sb.size ensures MarkedAt(b, {}, {}, c) {
      assert MarkedAt(a, {}, {}, c);
      SameBitsAt(a, b, c);
    }
  }

  lemma PieceByte(fs: Fs, r: Fs, i: nat, off: nat, src: seq<Byte>, k: nat)
    requires Layout(fs) && Apart(fs) && i < |fs.inodes| && off < MAXFILE * BSIZE && |src| <= BSIZE - off % BSIZE
    requires k < MAXFILE * BSIZE
    requires SameSlots(fs, r) && IsData(fs, Slot(fs, i, FileSlot(off / BSIZE)))
    requires Slot(fs, i, FileSlot(off / BSIZE)) != 0
    requires var x := Slot(fs, i, FileSlot(off / BSIZE));
             r == SetBlock(fs, x, Overwritten(fs.blocks[x], off % BSIZE, src))
    ensures FileByte(r, i, k) == if off <= k < off + |src| then src[k - off] else FileByte(fs, i, k)
  {
    hide Slot;
    var x := Slot(fs, i, FileSlot(off / BSIZE));
    assert SlotsApart(fs, i, FileSlot(off / BSIZE), i, FileSlot(k / BSIZE));
    SameSlotsAt(fs, r, i, FileSlot(k / BSIZE));
    if off <= k < off + |src| { WithinBlock(off, |src|, k); }
    else if k / BSIZE == off / BSIZE { OutsidePiece(off, |src|, k); }
  }

  lemma OutsidePiece(off: nat, m: nat, k: nat)
    requires m <= BSIZE - off % BSIZE && k / BSIZE == off / BSIZE && !(off <= k < off + m)
    ensures k % BSIZE < off % BSIZE || k % BSIZE >= off % BSIZE + m
  {
    assert k - k % BSIZE == off - off % BSIZE;
  }

  lemma SizeFits(fs: Fs, i: nat)
    requires Layout(fs) && i < |fs.inodes| && NoHoles(fs, i)
    ensures SizeFitsIn(fs, i)
  {
  }

  predicate SizeFitsIn(fs: Fs, i: nat) {
    i < |fs.inodes| && |fs.inodes[i].addrs| == NDIRECT + 1 && fs.inodes[i].size <= MAXFILE * BSIZE
  }

  lemma NoHolesAt(fs: Fs, i: nat)
    requires Layout(fs) && NoHolesAnywhere(fs) && i < |fs.inodes|
    ensures NoHoles(fs, i)
  {
  }

  lemma BlockThere(fs: Fs, i: nat, k: nat)
    requires Layout(fs) && i < |fs.inodes| && NoHoles(fs, i) && k < fs.inodes[i].size
    ensures k / BSIZE < MAXFILE && Slot(fs, i, FileSlot(k / BSIZE)) != 0
  {
    hide Slot;
    assert k / BSIZE * BSIZE <= k;
  }

  lemma ExtendedNot(a: Fs, b: Fs, i: nat, bn: nat)
    requires Extended(a, b, i, bn) && Slot(a, i, FileSlot(bn)) != 0
    ensures a == b
  {
  }

  lemma UntouchedSame(fs: Fs, j: nat)
    requires Layout(fs) && j < |fs.inodes|
    ensures Untouched(fs, fs, j)
  {
  }

  function Max(a: nat, b: nat): nat {
    if a > b then a else b
  }

  /** In the middle of writei: now is was with done written from off on, but for the size. */
  ghost predicate Writing(was: Fs, now: Fs, i: nat, off: nat, done: seq<Byte>) {
    && SameShape(was, now) && i < |was.inodes| && was.inodes[i].size <= MAXFILE * BSIZE
    && off <= was.inodes[i].size && off + |done| <= MAXFILE * BSIZE
    && (forall j: nat :: j < |was.inodes| && j != i ==> Untouched(was, now, j))
    && (forall k: nat :: k < Max(was.inodes[i].size, off + |done|) ==>
          && Slot(now, i, FileSlot(k / BSIZE)) != 0
          && FileByte(now, i, k) == if off <= k < off + |done| then done[k - off] else FileByte(was, i, k))
  }

  lemma WritingFits(was: Fs, now: Fs, i: nat, off: nat, done: seq<Byte>)
    requires Writing(was, now, i, off, done)
    ensures SameShape(was, now) && i < |now.inodes| && now.inodes[i].size == was.inodes[i].size <= MAXFILE * BSIZE
    ensures off + |done| <= MAXFILE * BSIZE && |now.inodes[i].addrs| == NDIRECT + 1
  {
  }

  lemma WritingExtended(was: Fs, a: Fs, b: Fs, i: nat, off: nat, done: seq<Byte>)
    requires Writing(was, a, i, off, done) && off + |done| < MAXFILE * BSIZE && InRange(a)
    requires Extended(a, b, i, (off + |done|) / BSIZE)
    ensures Writing(was, b, i, off, done)
  {
    hide Slot, InRange, Untouched, Extended, KeptData;
    ExtendedShape(a, b, i, (off + |done|) / BSIZE);
    forall j: nat | j < |was.inodes| && j != i ensures Untouched(was, b, j) {
      ExtendedUntouched(a, b, i, (off + |done|) / BSIZE, j);
      UntouchedOn(was, a, b, j);
    }
    forall k: nat | k < Max(was.inodes[i].size, off + |done|)
      ensures Slot(b, i, FileSlot(k / BSIZE)) != 0
      ensures FileByte(b, i, k) == if off <= k < off + |done| then done[k - off] else FileByte(was, i, k)
    {
      ExtendedBytes(a, b, i, (off + |done|) / BSIZE, k);
    }
  }

  lemma ExtendedShape(a: Fs, b: Fs, i: nat, bn: nat)
    requires Extended(a, b, i, bn)
    ensures SameShape(a, b)
  {
  }

  lemma WritingPiece(was: Fs, b: Fs, i: nat, off: nat, src: seq<Byte>, tot: nat, m: nat)
    requires tot + m <= |src| && Writing(was, b, i, off, src[..tot]) && Good(b, {}, {})
    requires off + |src| <= MAXFILE * BSIZE
    requires 0 < m <= BSIZE - (off + tot) % BSIZE && Slot(b, i, FileSlot((off + tot) / BSIZE)) != 0
    requires Slot(b, i, FileSlot((off + tot) / BSIZE)) < |b.blocks|
    ensures
      var x := Slot(b, i, FileSlot((off + tot) / BSIZE));
      var now := SetBlock(b, x, Overwritten(b.blocks[x], (off + tot) % BSIZE, src[tot..tot + m]));
      Writing(was, now, i, off, src[..tot + m])
  {
    hide Slot, Good, Untouched, FileByte;
    var piece := src[tot..tot + m];
    WritePiece(b, i, off + tot, piece);
    var x := Slot(b, i, FileSlot((off + tot) / BSIZE));
    var r := SetBlock(b, x, Overwritten(b.blocks[x], (off + tot) % BSIZE, piece));
    forall j: nat | j < |was.inodes| && j != i ensures Untouched(was, r, j) { UntouchedOn(was, b, r, j); }
    forall k: nat | k < Max(was.inodes[i].size, off + tot + m)
      ensures Slot(r, i, FileSlot(k / BSIZE)) != 0
      ensures FileByte(r, i, k) == if off <= k < off + tot + m then src[..tot + m][k - off] else FileByte(was, i, k)
    {
      SameSlotsAt(b, r, i, FileSlot(k / BSIZE));
      if off + tot <= k < off + tot + m { WithinBlock(off + tot, m, k); }
    }
  }

  /** The loop has ended with tot bytes done of those it has copied; the size takes account of tot. */
  lemma WritingDone(was: Fs, c: Fs, now: Fs, i: nat, off: nat, done: seq<Byte>, tot: nat)
    requires Writing(was, c, i, off, done) && Good(c, {}, {}) && NoHolesAnywhere(was) && tot <= |done|
    requires now == if off + tot > was.inodes[i].size then SetSize(c, i, off + tot) else c
    ensures Good(now, {}, {}) && NoHolesAnywhere(now) && SizeFitsIn(now, i)
    ensures Content(now, i) == Spliced(Content(was, i), off, done)[..Max(was.inodes[i].size, off + tot)]
    ensures forall j: nat :: j < |was.inodes| && j != i ==> Untouched(was, now, j)
    ensures AllMarked(c) <==> AllMarked(now)
  {
    hide Slot, Bit, Good, Untouched, NoHoles;
    SetSizeGood(c, i, off + tot);
    forall j: nat | j < |was.inodes| && j != i ensures Untouched(was, now, j) && NoHoles(now, j) {
      ResizedUntouched(was, c, i, off + tot, j);
      NoHolesAt(was, j);
      UntouchedContent(was, now, j);
    }
    WrittenNoHoles(was, c, now, i, off, done, tot);
    WrittenContent(was, c, now, i, off, done, tot);
  }

  lemma SetSizeGood(fs: Fs, i: nat, n: nat)
    requires Good(fs, {}, {}) && i < |fs.inodes|
    ensures Good(SetSize(fs, i, n), {}, {}) && SameSlots(fs, SetSize(fs, i, n))
    ensures AllMarked(fs) <==> AllMarked(SetSize(fs, i, n))
  {
    hide Slot, Word, BlockBit;
    var r := SetSize(fs, i, n);
    forall j, s | 0 <= j < |fs.inodes| && 0 <= s < NSLOT ensures Slot(r, j, s) == Slot(fs, j, s) {
      ResizedSlot(fs, i, n, j, s);
    }
    assert SameSlots(fs, r);
    SameBlocksBits(fs, r);
    SameBitsGood(fs, r);
    forall b: nat | b < fs.sb.size ensures BitmapBlock(fs.sb, b) < |fs.blocks| && Bit(fs, b) == Bit(r, b) {
      SameBitsAt(fs, r, b);
    }
  }

  lemma ResizedSlot(fs: Fs, i: nat, n: nat, j: nat, s: nat)
    requires Layout(fs) && i < |fs.inodes| && j < |fs.inodes| && s < NSLOT
    ensures Layout(SetSize(fs, i, n)) && Slot(SetSize(fs, i, n), j, s) == Slot(fs, j, s)
  {
  }

  lemma ResizedUntouched(was: Fs, c: Fs, i: nat, n: nat, j: nat)
    requires Untouched(was, c, j) && i < |was.inodes| && j != i
    ensures Untouched(was, SetSize(c, i, n), j)
  {
    hide Word;
  }

  lemma WrittenNoHoles(was: Fs, c: Fs, now: Fs, i: nat, off: nat, done: seq<Byte>, tot: nat)
    requires Writing(was, c, i, off, done) && SameSlots(c, now) && tot <= |done|
    requires now == if off + tot > was.inodes[i].size then SetSize(c, i, off + tot) else c
    ensures NoHoles(now, i)
  {
    hide Slot, Untouched;
    forall bn: nat | bn < MAXFILE && bn * BSIZE < now.inodes[i].size ensures Slot(now, i, FileSlot(bn)) != 0 {
      assert bn * BSIZE / BSIZE == bn;
      SameSlotsAt(c, now, i, FileSlot(bn));
    }
  }

  lemma WrittenContent(was: Fs, c: Fs, now: Fs, i: nat, off: nat, done: seq<Byte>, tot: nat)
    requires Writing(was, c, i, off, done) && SameSlots(c, now) && tot <= |done|
    requires now == if off + tot > was.inodes[i].size then SetSize(c, i, off + tot) else c
    ensures SizeFitsIn(now, i)
    ensures Content(now, i) == Spliced(Content(was, i), off, done)[..Max(was.inodes[i].size, off + tot)]
  {
    hide Slot, Untouched;
    var content := Content(was, i);
    forall k | 0 <= k < now.inodes[i].size ensures FileByte(now, i, k) == Spliced(content, off, done)[k] {
      SameSlotsAt(c, now, i, FileSlot(k / BSIZE));
      assert FileByte(now, i, k) == FileByte(c, i, k);
    }
  }

  // ---- the steps of itrunc ----

  /** Data blocks have the same bytes. */
  ghost predicate SameData(a: Fs, b: Fs) {
    a.sb == b.sb && |a.blocks| == |b.blocks| && forall x: nat :: IsData(a, x) ==> b.blocks[x] == a.blocks[x]
  }

  /** c is fs once itrunc is done with it, but for the size. */
  ghost predicate Truncated(was: Fs, now: Fs, i: nat) {
    && Layout(was) && Layout(now) && was.sb == now.sb && |was.inodes| == |now.inodes| && i < |was.inodes|
    && (forall s :: 0 <= s < NSLOT ==> Slot(now, i, s) == 0)
    && (forall b: nat :: b < was.sb.size ==>
          && BitmapBlock(was.sb, b) < |was.blocks| && BitmapBlock(now.sb, b) < |now.blocks|
          && (Bit(now, b) <==> Bit(was, b) && (b == 0 || forall s :: 0 <= s < NSLOT ==> Slot(was, i, s) != b)))
  }

  /** The direct addresses below k are gone. */
  ghost predicate Dropped(was: Fs, now: Fs, i: nat, k: nat) {
    && SameShape(was, now) && i < |was.inodes| && k <= NSLOT && SameData(was, now)
    && forall j, s :: 0 <= j < |was.inodes| && 0 <= s < NSLOT ==>
         Slot(now, j, s) == if j == i && s < k then 0 else Slot(was, j, s)
  }

  /** The indirect block and its entries are gone. */
  ghost predicate Dropped2(was: Fs, now: Fs, i: nat) {
    && SameShape(was, now) && i < |was.inodes| && SameData(was, now)
    && forall j, s :: 0 <= j < |was.inodes| && 0 <= s < NSLOT ==>
         Slot(now, j, s) == if j == i && s >= NDIRECT then 0 else Slot(was, j, s)
  }

  lemma DroppedNone(fs: Fs, i: nat)
    requires Layout(fs) && i < |fs.inodes|
    ensures Dropped(fs, fs, i, 0)
  {
    hide Slot;
  }

  lemma DirectIs(fs: Fs, i: nat, k: nat)
    requires Layout(fs) && i < |fs.inodes| && k < NDIRECT
    ensures Slot(fs, i, k) == fs.inodes[i].addrs[k]
  {
  }

  lemma UnmarkFacts(fs: Fs, b: nat)
    requires Layout(fs) && b < fs.sb.size
    ensures BitmapBlock(fs.sb, b) < |fs.blocks| && SameData(fs, Unmark(fs, b)) && Unmark(fs, b).inodes == fs.inodes
    ensures SameShape(fs, Unmark(fs, b))
  {
    hide ClearBit;
    BitmapBlockIsMeta(fs, b);
  }

  /** A direct block has just been freed; its address goes. */
  lemma FreedDirect(a: Fs, b: Fs, i: nat, k: nat)
    requires Layout(a) && i < |a.inodes| && k < NDIRECT && a.inodes[i].addrs[k] != 0
    requires SameSlots(a, b) && b.inodes == a.inodes && SameData(a, b) && Good(b, {}, {} + {a.inodes[i].addrs[k]})
    ensures var c := SetAddr(b, i, k, 0); Good(c, {}, {}) && SameShape(a, c) && SameData(a, c)
    ensures forall j, s :: 0 <= j < |a.inodes| && 0 <= s < NSLOT ==>
              Slot(SetAddr(b, i, k, 0), j, s) == if j == i && s == k then 0 else Slot(a, j, s)
  {
    DirectIs(a, i, k);
    hide Slot, Bit, Owned, Marked, InRange, Apart, SlotSet;
    var c := SetAddr(b, i, k, 0);
    SetAddrDirect(b, i, k, 0);
    SlotSetLayout(b, c, i, k);
    SameSlotsAt(a, b, i, k);
    DetachGood(b, c, i, k, {}, {} + {a.inodes[i].addrs[k]});
    assert {} + {a.inodes[i].addrs[k]} - {a.inodes[i].addrs[k]} == {};
    forall j, s | 0 <= j < |a.inodes| && 0 <= s < NSLOT
      ensures Slot(c, j, s) == if j == i && s == k then 0 else Slot(a, j, s)
    {
      if j != i || s != k { SlotSetOther(b, c, i, k, j, s); }
    }
  }

  lemma SlotSetOther(a: Fs, b: Fs, i: nat, s: nat, j: nat, t: nat)
    requires SlotSet(a, b, i, s) && j < |a.inodes| && t < NSLOT && (j != i || t != s)
    ensures Slot(b, j, t) == Slot(a, j, t)
  {
  }

  lemma DroppedOne(was: Fs, a: Fs, c: Fs, i: nat, k: nat)
    requires Dropped(was, a, i, k) && k < NDIRECT && SameShape(a, c) && SameData(a, c)
    requires forall j, s :: 0 <= j < |a.inodes| && 0 <= s < NSLOT ==>
               Slot(c, j, s) == if j == i && s == k then 0 else Slot(a, j, s)
    ensures Dropped(was, c, i, k + 1)
  {
    hide Slot;
  }

  lemma DroppedEmpty(was: Fs, a: Fs, i: nat)
    requires Dropped(was, a, i, NDIRECT) && a.inodes[i].addrs[NDIRECT] == 0
    ensures Dropped2(a, a, i)
  {
  }

  lemma DroppedOn(was: Fs, a: Fs, c: Fs, i: nat)
    requires Dropped(was, a, i, NDIRECT) && Dropped2(a, c, i)
    ensures Dropped(was, c, i, NSLOT)
  {
    hide Slot;
  }

  lemma SameSlotsSame(fs: Fs)
    requires Layout(fs)
    ensures SameSlots(fs, fs)
  {
  }

  lemma SameSlotsOn(a: Fs, b: Fs, c: Fs)
    requires SameSlots(a, b) && SameSlots(b, c)
    ensures SameSlots(a, c)
  {
    hide Slot;
  }

  lemma EntryIs(fs: Fs, i: nat, j: nat)
    requires Layout(fs) && i < |fs.inodes| && j < NINDIRECT && IsData(fs, fs.inodes[i].addrs[NDIRECT])
    ensures Slot(fs, i, NDIRECT + 1 + j) == Word(fs.blocks[fs.inodes[i].addrs[NDIRECT]], j)
  {
  }

  /** The blocks of the first j entries are gone. */
  ghost predicate Gone(fs: Fs, i: nat, j: nat, gone: set<nat>)
    requires Layout(fs) && i < |fs.inodes| && j <= NINDIRECT
  {
    && (forall s :: NDIRECT < s < NDIRECT + 1 + j && Slot(fs, i, s) != 0 ==> Slot(fs, i, s) in gone)
    && (forall c <- gone :: exists s :: NDIRECT < s < NDIRECT + 1 + j && Slot(fs, i, s) == c != 0)
  }

  lemma GoneNone(fs: Fs, i: nat)
    requires Layout(fs) && i < |fs.inodes|
    ensures Gone(fs, i, 0, {})
  {
  }

  lemma GoneOne(fs: Fs, i: nat, j: nat, before: set<nat>, gone: set<nat>)
    requires Layout(fs) && i < |fs.inodes| && j < NINDIRECT && Gone(fs, i, j, before)
    requires var b := Slot(fs, i, NDIRECT + 1 + j); gone == if b == 0 then before else before + {b}
    ensures Gone(fs, i, j + 1, gone)
  {
    hide Slot;
    forall c | c in gone ensures exists s :: NDIRECT < s < NDIRECT + 2 + j && Slot(fs, i, s) == c != 0 {
      if c != Slot(fs, i, NDIRECT + 1 + j) {
        var s :| NDIRECT < s < NDIRECT + 1 + j && Slot(fs, i, s) == c != 0;
      }
    }
  }

  /** Another slot's block has not been freed yet. */
  lemma NotGone(fs: Fs, i: nat, j: nat, s: nat, gone: set<nat>)
    requires Layout(fs) && Apart(fs) && i < |fs.inodes| && j <= NINDIRECT && Gone(fs, i, j, gone)
    requires s < NSLOT && (s <= NDIRECT || s >= NDIRECT + 1 + j) && Slot(fs, i, s) != 0
    ensures Slot(fs, i, s) !in gone
  {
    hide Slot;
    forall t | NDIRECT < t < NDIRECT + 1 + j ensures Slot(fs, i, t) != Slot(fs, i, s) {
      assert SlotsApart(fs, i, t, i, s);
    }
  }

  lemma GoneAll(fs: Fs, b: Fs, i: nat, gone: set<nat>, d: nat)
    requires SameSlots(fs, b) && i < |fs.inodes| && Gone(fs, i, NINDIRECT, gone) && d == Slot(fs, i, NDIRECT) != 0
    ensures forall s :: NDIRECT <= s < NSLOT && Slot(b, i, s) != 0 ==> Slot(b, i, s) in gone + {d}
    ensures forall c <- gone + {d} :: exists s :: NDIRECT <= s < NSLOT && Slot(b, i, s) == c != 0
  {
    hide Slot;
    forall s: nat | NDIRECT <= s < NSLOT && Slot(b, i, s) != 0 ensures Slot(b, i, s) in gone + {d} {
      SameSlotsAt(fs, b, i, s);
    }
    forall c | c in gone + {d} ensures exists s :: NDIRECT <= s < NSLOT && Slot(b, i, s) == c != 0 {
      if c == d { SameSlotsAt(fs, b, i, NDIRECT); }
      else {
        var s :| NDIRECT < s < NSLOT && Slot(fs, i, s) == c != 0;
        SameSlotsAt(fs, b, i, s);
      }
    }
  }

  lemma DroppedIndirect(fs: Fs, b: Fs, c: Fs, i: nat)
    requires SameSlots(fs, b) && b.inodes == fs.inodes && SameData(fs, b) && i < |fs.inodes|
    requires c == SetAddr(b, i, NDIRECT, 0)
    ensures Dropped2(fs, c, i)
  {
    DropIndirectSlots(b, i);
    hide Slot;
  }

  lemma TruncDone(was: Fs, c: Fs, i: nat)
    requires Good(was, {}, {}) && NoHolesAnywhere(was) && Good(c, {}, {}) && Dropped(was, c, i, NSLOT)
    ensures var now := SetSize(c, i, 0);
      && Good(now, {}, {}) && NoHolesAnywhere(now) && Truncated(was, now, i)
      && forall j: nat :: j < |was.inodes| && j != i ==> Untouched(was, now, j)
  {
    hide Slot, Good, Bit, NoHoles, BitmapBlock, SameSlots;
    var now := SetSize(c, i, 0);
    SetSizeGood(c, i, 0);
    SameSlotsLayout(c, now);
    forall j, s | 0 <= j < |was.inodes| && 0 <= s < NSLOT
      ensures Slot(now, j, s) == if j == i then 0 else Slot(was, j, s)
    {
      SameSlotsAt(c, now, j, s);
    }
    forall j: nat | j < |was.inodes| && j != i ensures Untouched(was, now, j) && NoHoles(now, j) {
      NoHolesAt(was, j);
      UntouchedContent(was, now, j);
    }
    assert NoHoles(now, i) by { EmptyNoHoles(now, i); }
    forall b: nat | b < was.sb.size
      ensures BitmapBlock(was.sb, b) < |was.blocks| && BitmapBlock(now.sb, b) < |now.blocks|
      ensures Bit(now, b) <==> Bit(was, b) && (b == 0 || forall s :: 0 <= s < NSLOT ==> Slot(was, i, s) != b)
    {
      TruncBit(was, now, i, b);
    }
  }

  lemma EmptyNoHoles(fs: Fs, i: nat)
    requires Layout(fs) && i < |fs.inodes| && fs.inodes[i].size == 0
    ensures NoHoles(fs, i)
  {
  }

  lemma TruncBit(was: Fs, now: Fs, i: nat, b: nat)
    requires Good(was, {}, {}) && Good(now, {}, {}) && was.sb == now.sb && |was.inodes| == |now.inodes|
    requires i < |was.inodes| && b < was.sb.size
    requires forall j, s :: 0 <= j < |was.inodes| && 0 <= s < NSLOT ==>
               Slot(now, j, s) == if j == i then 0 else Slot(was, j, s)
    ensures BitmapBlock(was.sb, b) < |was.blocks| && BitmapBlock(now.sb, b) < |now.blocks|
    ensures Bit(now, b) <==> Bit(was, b) && (b == 0 || forall s :: 0 <= s < NSLOT ==> Slot(was, i, s) != b)
  {
    hide Slot, Bit, BitmapBlock;
    assert MarkedAt(was, {}, {}, b) && MarkedAt(now, {}, {}, b);
    if b != 0 {
      forall s | 0 <= s < NSLOT ensures Slot(was, i, s) == b ==> Bit(was, b) && b >= was.sb.meta && !Owned(now, b) {
        if Slot(was, i, s) == b {
          assert Owned(was, b);
          forall j, t | 0 <= j < |now.inodes| && 0 <= t < NSLOT ensures Slot(now, j, t) != b {
            assert SlotsApart(was, i, s, j, t);
          }
        }
      }
      if Owned(was, b) && forall s :: 0 <= s < NSLOT ==> Slot(was, i, s) != b {
        var j, t :| 0 <= j < |was.inodes| && 0 <= t < NSLOT && Slot(was, j, t) == b;
        assert Slot(now, j, t) == b;
      }
      if Owned(now, b) {
        var j, t :| 0 <= j < |now.inodes| && 0 <= t < NSLOT && Slot(now, j, t) == b;
        assert Slot(was, j, t) == b;
      }
    }
  }

  // ---- what mkfs leaves behind ----

  /**
  Files laid out one block after the other from the first data block on, up to block used, which is the first
  free one, and the bitmap marking everything below it. With used == meta there are no files yet.
  */
  ghost predicate Formatted(fs: Fs, used: nat) {
    && Layout(fs) && fs.sb.meta <= used <= fs.sb.size
    && (forall i, s :: 0 <= i < |fs.inodes| && 0 <= s < NSLOT ==>
         Slot(fs, i, s) == 0 || fs.sb.meta <= Slot(fs, i, s) < used)
    && Apart(fs) && (forall b :: fs.sb.meta <= b < used ==> Owned(fs, b))
    && (forall b: nat :: b < fs.sb.size ==> BitmapBlock(fs.sb, b) < |fs.blocks| && (Bit(fs, b) <==> b < used))
  }

  lemma FormattedIsGood(fs: Fs, used: nat)
    requires Formatted(fs, used)
    ensures Good(fs, {}, {})
  {
    hide Bit, Word, Apart, Slot;
    forall b | 0 <= b < fs.sb.size ensures MarkedAt(fs, {}, {}, b) {
      if b >= used {
        forall i, s | 0 <= i < |fs.inodes| && 0 <= s < NSLOT ensures Slot(fs, i, s) != b { }
      }
    }
  }

  /**
  mkfs rounds the size of the root directory up to the next multiple of a block, past its d bytes of names.
  That is covered by its blocks just when d is not itself a multiple: with 64 names, or 128, there is a hole.
  */
  lemma RootRounded(fs: Fs, i: nat, d: nat)
    requires Layout(fs) && i < |fs.inodes| && d < MAXFILE * BSIZE && fs.inodes[i].size == d && NoHoles(fs, i)
    requires forall bn: nat :: bn < MAXFILE && bn * BSIZE >= d ==> Slot(fs, i, FileSlot(bn)) == 0
    ensures Layout(SetSize(fs, i, (d / BSIZE + 1) * BSIZE))
    ensures NoHoles(SetSize(fs, i, (d / BSIZE + 1) * BSIZE), i) <==> d % BSIZE != 0
  {
    var now := SetSize(fs, i, (d / BSIZE + 1) * BSIZE);
    forall s | 0 <= s < NSLOT ensures Slot(now, i, s) == Slot(fs, i, s) { }
    hide Slot;
    if d % BSIZE == 0 {
      var bn := d / BSIZE;
      assert bn < MAXFILE && bn * BSIZE < now.inodes[i].size && Slot(fs, i, FileSlot(bn)) == 0;
    } else {
      forall bn: nat | bn < MAXFILE && bn * BSIZE < now.inodes[i].size ensures Slot(now, i, FileSlot(bn)) != 0 {
        assert bn <= d / BSIZE && bn * BSIZE < d;
      }
    }
  }

  // ---- the scan of balloc ----

  lemma GoodLayout(fs: Fs, extra: set<nat>, gone: set<nat>)
    requires Good(fs, extra, gone)
    ensures Layout(fs)
  {
  }

  /** Every block below n is in use. */
  ghost predicate MarkedBelow(fs: Fs, n: nat) {
    forall c: nat :: c < n && c < fs.sb.size ==> BitmapBlock(fs.sb, c) < |fs.blocks| && Bit(fs, c)
  }

  lemma NothingBelow(fs: Fs)
    ensures MarkedBelow(fs, 0)
  {
  }

  lemma BelowMarked(fs: Fs, n: nat)
    requires MarkedBelow(fs, n) && Layout(fs)
    ensures forall c: nat :: c < n && c < fs.sb.size ==> BitmapBlock(fs.sb, c) < |fs.blocks| && Bit(fs, c)
    ensures n >= fs.sb.size ==> AllMarked(fs)
  {
  }

  lemma OneMoreMarked(fs: Fs, n: nat)
    requires MarkedBelow(fs, n) && n < fs.sb.size && BitmapBlock(fs.sb, n) < |fs.blocks| && Bit(fs, n)
    ensures MarkedBelow(fs, n + 1)
  {
  }

  /** The inner loop ended at the end of a bitmap block or of the disk. */
  lemma PastTheEnd(fs: Fs, b: nat, bi: nat)
    requires MarkedBelow(fs, b + bi) && bi <= BPB && (bi == BPB || b + bi >= fs.sb.size)
    ensures MarkedBelow(fs, b + BPB)
  {
  }

  class FileSys {
    const sb: Super
    var blocks: seq<Block>
    var inodes: seq<Inode>

    ghost function V(): Fs
      reads this
    {
      Fs(sb, blocks, inodes)
    }

    /** The bitmap is exact, no block has two owners, and no file has a hole. */
    ghost predicate Valid()
      reads this
    {
      Good(V(), {}, {}) && NoHolesAnywhere(V())
    }

    /** A file system just mounted. */
    constructor (fs: Fs)
      requires Good(fs, {}, {}) && NoHolesAnywhere(fs)
      ensures Valid() && V() == fs
    {
      sb, blocks, inodes := fs.sb, fs.blocks, fs.inodes;
    }

    /** A zeroed block, marked in use: the lowest clear bit; 0 when there is none. */
    method Balloc(ghost extra: set<nat>) returns (r: nat)
      requires Good(V(), extra, {})
      modifies this
      ensures inodes == old(inodes)
      ensures r == 0 ==> V() == old(V()) && AllMarked(V())
      ensures r != 0 ==>
                && IsData(old(V()), r) && !Owned(old(V()), r) && r !in extra && BitmapBlock(sb, r) < |blocks|
                && V() == Alloc(old(V()), r) && Good(V(), extra + {r}, {})
                && !Bit(old(V()), r) && forall c: nat :: c < r ==>
                     BitmapBlock(sb, c) < |old(blocks)| && Bit(old(V()), c)
    {
      hide Slot, Bit, InRange, Apart, Marked, Owned, SetBit, Alloc, Mark, Good, MarkedBelow, BitOf, BitmapBlock,
           Layout, AllMarked, IsData;
      ghost var fs := V();
      GoodLayout(fs, extra, {});
      NothingBelow(fs);
      var b := 0;
      while b < sb.size
        invariant V() == fs && b % BPB == 0 && MarkedBelow(fs, b)
      {
        BitmapBlockIsMeta(fs, b);
        var bp := blocks[BitmapBlock(sb, b)];
        var bi := 0;
        while bi < BPB && b + bi < sb.size
          invariant V() == fs && bi <= BPB && MarkedBelow(fs, b + bi)
        {
          SameBitmap(fs, b, bi);
          if !BitOf(bp[bi / 8], bi % 8) {
            BelowMarked(fs, b + bi);
            Claim(b, bi, bp, extra);
            return b + bi;
          }
          OneMoreMarked(fs, b + bi);
          bi := bi + 1;
        }
        PastTheEnd(fs, b, bi);
        b := b + BPB;
      }
      BelowMarked(fs, b);
      return 0;
    }

    /** balloc has found the bi-th bit of the bitmap block for b clear. */
    method Claim(b: nat, bi: nat, data: Block, ghost extra: set<nat>)
      requires Good(V(), extra, {}) && b % BPB == 0 && bi < BPB && b + bi < sb.size
      requires BitmapBlock(sb, b) < |blocks| && data == blocks[BitmapBlock(sb, b)] && !BitOf(data[bi / 8], bi % 8)
      modifies this
      ensures inodes == old(inodes)
      ensures IsData(old(V()), b + bi) && !Owned(old(V()), b + bi) && b + bi !in extra && b + bi != 0
      ensures BitmapBlock(sb, b + bi) < |old(blocks)| == |blocks| && !Bit(old(V()), b + bi)
      ensures V() == Alloc(old(V()), b + bi) && Good(V(), extra + {b + bi}, {})
    {
      hide Slot, Bit, InRange, Apart, Marked, Owned, SetBit, Alloc, Mark;
      ghost var fs := V();
      SameBitmap(fs, b, bi);
      ClearIsFree(fs, b + bi, extra);
      AllocGood(fs, b + bi, extra);
      AllocIs(fs, b, bi);
      blocks := blocks[BitmapBlock(sb, b) := data[bi / 8 := data[bi / 8] | Mask(bi % 8)]];
      Bzero(b + bi);
    }

    method Bzero(bno: nat)
      requires bno < |blocks|
      modifies this
      ensures inodes == old(inodes) && blocks == old(blocks)[bno := Zero()]
    {
      blocks := blocks[bno := Zero()];
    }

    /** The block of file i that holds its bn-th part, allocated if it is not there; 0 when the disk is full. */
    method Bmap(i: nat, bn: nat) returns (addr: nat)
      requires Good(V(), {}, {}) && i < |inodes| && bn < MAXFILE
      modifies this
      ensures Good(V(), {}, {}) && Extended(old(V()), V(), i, bn) && addr == Slot(V(), i, FileSlot(bn))
      ensures addr == 0 ==> AllMarked(V())
      ensures addr != 0 && Slot(old(V()), i, FileSlot(bn)) == 0 ==> blocks[addr] == Zero()
    {
      hide Slot, Bit, InRange, Apart, Marked, Owned, Alloc, Extended, AllMarked, BitmapBlock;
      if bn < NDIRECT {
        addr := BmapDirect(i, bn);
        return;
      }
      ghost var a := V();
      IndirectIs(a, i);
      ExtendedSame(a, i, bn);
      addr := inodes[i].addrs[NDIRECT];
      if addr == 0 {
        NoIndirect(a, i, FileSlot(bn));
        addr := Balloc({});
        if addr == 0 { return; }
        AttachIndirect(a, i, bn, addr);
        SetInodeAddr(i, NDIRECT, addr);
      }
      ghost var b := V();
      SlotInRange(b, i, NDIRECT);
      IndirectIs(b, i);
      addr := BmapEntry(i, bn - NDIRECT, addr);
      if b != a { ExtendedOn(a, b, V(), i, bn); }
    }

    /** Bytes off .. off + n of file i, or as many of them as there are. */
    method Readi(i: nat, off: nat, n: nat, writable: nat) returns (failed: bool, dst: seq<Byte>)
      requires Valid() && i < |inodes| && off < UINT && n < UINT
      modifies this
      ensures V() == old(V())
      ensures NoHoles(V(), i) && failed == (|ToRead(V(), i, off, n)| > writable)
      ensures dst <= ToRead(V(), i, off, n) && (!failed ==> dst == ToRead(V(), i, off, n))
    {
      hide Slot, InRange, Apart, Marked, Extended, AllMarked, NoHoles, Content, ToRead;
      ghost var fs := V();
      NoHolesAt(fs, i);
      SizeFits(fs, i);
      ToReadIs(fs, i, off, n);
      failed, dst := false, [];
      if off > inodes[i].size || off + n >= UINT { return; }
      var want := if off + n > inodes[i].size then inodes[i].size - off else n;
      var tot, at := 0, off;
      while tot < want
        invariant tot <= want && tot <= writable && at == off + tot && V() == fs && dst == Content(fs, i)[off..at]
      {
        BlockThere(fs, i, at);
        var addr := Bmap(i, at / BSIZE);
        ExtendedNot(fs, V(), i, at / BSIZE);
        SlotInRange(fs, i, FileSlot(at / BSIZE));
        var m := if want - tot < BSIZE - at % BSIZE then want - tot else BSIZE - at % BSIZE;
        if tot + m > writable { failed := true; return; }
        ReadPiece(fs, i, at, m);
        assert Content(fs, i)[off..at] + Content(fs, i)[at..at + m] == Content(fs, i)[off..at + m];
        dst := dst + blocks[addr][at % BSIZE..at % BSIZE + m];
        tot, at := tot + m, at + m;
      }
    }

    /**
    writei, from user memory of which the first readable bytes can be read. The bytes copied are what is then in
    the file, from off on. When a copy fails, what it had copied of its piece is in the buffer but not in the log, and
    neither the size nor the result takes account of it. kept says what becomes of it: whether somebody logs that
    buffer again before it is recycled and the block read anew. See UnreportedBytes.
    */
    method Writei(i: nat, off: nat, src: seq<Byte>, readable: nat, kept: bool)
      returns (r: Option<nat>, ghost copied: nat)
      requires Valid() && i < |inodes| && off < UINT && |src| < UINT
      modifies this
      ensures Valid() && |inodes| == |old(inodes)| && SizeFitsIn(old(V()), i) && SizeFitsIn(V(), i)
      ensures r.None? <==> off > old(inodes)[i].size || off + |src| >= UINT || off + |src| > MAXFILE * BSIZE
      ensures r.None? ==> V() == old(V())
      ensures r.Some? ==> r.value <= copied <= |src| && (r.value < |src| ==> AllMarked(V()) || readable < |src|)
      ensures r.Some? ==> copied == r.value || (kept && copied == readable)
      ensures r.Some? ==>
                var was := Content(old(V()), i);
                Content(V(), i) == Spliced(was, off, src[..copied])[..Max(|was|, off + r.value)]
      ensures forall j: nat :: j < |inodes| && j != i ==> Untouched(old(V()), V(), j)
    {
      hide Slot, InRange, Apart, Marked, Extended, AllMarked, Untouched, NoHoles, Content, Spliced, Overwritten,
           BlockBit;
      ghost var fs := V();
      copied := 0;
      NoHolesAt(fs, i);
      SizeFits(fs, i);
      forall j: nat | j < |inodes| ensures Untouched(fs, fs, j) { UntouchedSame(fs, j); }
      if off > inodes[i].size || off + |src| >= UINT || off + |src| > MAXFILE * BSIZE { return None, 0; }
      var tot, at := 0, off;
      while tot < |src|
        invariant tot == copied <= |src| && at == off + tot && Writing(fs, V(), i, off, src[..tot])
        invariant Good(V(), {}, {})
      {
        var m, n := WriteBlock(i, at, off, src, tot, readable, kept, fs);
        copied := tot + n;
        if n < m { break; }
        tot, at := tot + m, at + m;
      }
      ghost var c := V();
      WritingFits(fs, c, i, off, src[..copied]);
      if at > inodes[i].size { SetInodeSize(i, at); }
      WritingDone(fs, c, V(), i, off, src[..copied], tot);
      r := Some(tot);
    }

    /**
    One pass of the loop: of a piece of m bytes, n are copied; all of them unless a block or readable memory lacks.
    */
    method WriteBlock(i: nat, at: nat, ghost off: nat, src: seq<Byte>, tot: nat, readable: nat, kept: bool,
                      ghost fs: Fs)
      returns (m: nat, n: nat)
      requires tot < |src| && at == off + tot && off + |src| <= MAXFILE * BSIZE
      requires Good(V(), {}, {}) && i < |inodes| && Writing(fs, V(), i, off, src[..tot])
      modifies this
      ensures n <= m && 0 < m <= |src| - tot && Good(V(), {}, {}) && Writing(fs, V(), i, off, src[..tot + n])
      ensures n < m ==> (n == 0 && AllMarked(V())) || (readable < |src| && (n == 0 || (kept && tot + n == readable)))
    {
      hide Slot, InRange, Apart, Marked, Extended, AllMarked, Untouched, NoHoles, Overwritten, BlockBit, Content;
      ghost var a := V();
      WritingFits(fs, a, i, off, src[..tot]);
      var addr := Bmap(i, at / BSIZE);
      ghost var b := V();
      WritingExtended(fs, a, b, i, off, src[..tot]);
      m := if |src| - tot < BSIZE - at % BSIZE then |src| - tot else BSIZE - at % BSIZE;
      n := if addr == 0 || readable <= tot then 0
           else if tot + m <= readable then m
           else if kept then readable - tot else 0;
      if n > 0 {
        WritingFits(fs, b, i, off, src[..tot]);
        SlotInRange(b, i, FileSlot(at / BSIZE));
        WritePiece(b, i, at, src[tot..tot + n]);
        WritingPiece(fs, b, i, off, src, tot, n);
        blocks := blocks[addr := Overwritten(blocks[addr], at % BSIZE, src[tot..tot + n])];
      }
    }

    /** Every block of file i is freed, and only those. */
    method ITrunc(i: nat)
      requires Valid() && i < |inodes|
      modifies this
      ensures Valid() && i < |inodes| && inodes[i].size == 0 && Truncated(old(V()), V(), i)
      ensures forall j: nat :: j < |inodes| && j != i ==> Untouched(old(V()), V(), j)
    {
      hide Slot, InRange, Apart, Marked, Owned, Unmark, Bit, Untouched, NoHoles, SameSlots, Dropped, BitmapBlock;
      ghost var fs := V();
      DroppedNone(fs, i);
      var k := 0;
      while k < NDIRECT
        invariant k <= NDIRECT && i < |inodes| && Good(V(), {}, {}) && Dropped(fs, V(), i, k)
      {
        ghost var a := V();
        DirectIs(a, i, k);
        if inodes[i].addrs[k] != 0 {
          OwnedAt(a, i, k);
          Bfree(inodes[i].addrs[k], {}, {});
          ghost var b := V();
          UnmarkFacts(a, a.inodes[i].addrs[k]);
          SameSlotsAt(a, b, i, k);
          SetInodeAddr(i, k, 0);
          FreedDirect(a, b, i, k);
        }
        DroppedOne(fs, a, V(), i, k);
        k := k + 1;
      }
      ghost var a := V();
      IndirectIs(a, i);
      if inodes[i].addrs[NDIRECT] != 0 { TruncIndirect(i); } else { DroppedEmpty(fs, a, i); }
      if inodes[i].addrs[NDIRECT] == 0 { DroppedOn(fs, a, V(), i); }
      ghost var c := V();
      SetInodeSize(i, 0);
      TruncDone(fs, c, i);
    }

    /** The blocks of the indirect block's entries, then that block. */
    method TruncIndirect(i: nat)
      requires Good(V(), {}, {}) && i < |inodes| && inodes[i].addrs[NDIRECT] != 0
      modifies this
      ensures Good(V(), {}, {}) && |inodes| == |old(inodes)| && inodes[i].addrs[NDIRECT] == 0
      ensures Dropped2(old(V()), V(), i)
    {
      hide Slot, InRange, Apart, Marked, Owned, Unmark, Bit, BitmapBlock, SameSlots, Gone;
      ghost var fs := V();
      var d := inodes[i].addrs[NDIRECT];
      IndirectIs(fs, i);
      SlotInRange(fs, i, NDIRECT);
      var bp := blocks[d];
      ghost var gone: set<nat> := {};
      GoneNone(fs, i);
      SameSlotsSame(fs);
      var j := 0;
      while j < NINDIRECT
        invariant j <= NINDIRECT && Good(V(), {}, gone) && SameSlots(fs, V()) && Gone(fs, i, j, gone)
        invariant inodes == fs.inodes && SameData(fs, V())
      {
        EntryIs(fs, i, j);
        SameSlotsAt(fs, V(), i, NDIRECT + 1 + j);
        ghost var before := gone;
        if Word(bp, j) != 0 {
          ghost var a := V();
          OwnedAt(a, i, NDIRECT + 1 + j);
          NotGone(fs, i, j, NDIRECT + 1 + j, gone);
          Bfree(Word(bp, j), {}, gone);
          UnmarkFacts(a, Word(bp, j));
          SameSlotsOn(fs, a, V());
          gone := gone + {Word(bp, j)};
        }
        GoneOne(fs, i, j, before, gone);
        j := j + 1;
      }
      ghost var a := V();
      SameSlotsAt(fs, a, i, NDIRECT);
      OwnedAt(a, i, NDIRECT);
      NotGone(fs, i, NINDIRECT, NDIRECT, gone);
      Bfree(d, {}, gone);
      UnmarkFacts(a, d);
      SameSlotsOn(fs, a, V());
      ghost var b := V();
      GoneAll(fs, b, i, gone, d);
      DropIndirectGood(b, i, {}, gone + {d});
      SetInodeAddr(i, NDIRECT, 0);
      DroppedIndirect(fs, b, V(), i);
    }

    method SetInodeSize(i: nat, n: nat)
      requires i < |inodes|
      modifies this
      ensures V() == SetSize(old(V()), i, n)
    {
      inodes := inodes[i := inodes[i].(size := n)];
    }

    method SetInodeAddr(i: nat, s: nat, b: nat)
      requires i < |inodes| && s < |inodes[i].addrs|
      modifies this
      ensures V() == SetAddr(old(V()), i, s, b)
    {
      inodes := inodes[i := inodes[i].(addrs := inodes[i].addrs[s := b])];
    }

    method BmapDirect(i: nat, bn: nat) returns (addr: nat)
      requires Good(V(), {}, {}) && i < |inodes| && bn < NDIRECT
      modifies this
      ensures Good(V(), {}, {}) && Extended(old(V()), V(), i, bn) && addr == Slot(V(), i, bn)
      ensures addr == 0 ==> AllMarked(V())
      ensures addr != 0 && Slot(old(V()), i, bn) == 0 ==> blocks[addr] == Zero()
    {
      hide Bit, InRange, Apart, Marked, Owned, Alloc, Extended, AllMarked, BitmapBlock;
      ghost var a := V();
      ExtendedSame(a, i, bn);
      addr := inodes[i].addrs[bn];
      if addr == 0 {
        addr := Balloc({});
        if addr == 0 { return; }
        AttachDirect(a, i, bn, addr);
        SetInodeAddr(i, bn, addr);
      }
    }

    /** The j-th entry of the indirect block d. */
    method BmapEntry(i: nat, j: nat, d: nat) returns (addr: nat)
      requires Good(V(), {}, {}) && i < |inodes| && j < NINDIRECT && d == inodes[i].addrs[NDIRECT] != 0
      requires IsData(V(), d)
      modifies this
      ensures Good(V(), {}, {}) && Extended(old(V()), V(), i, NDIRECT + j) && addr == Slot(V(), i, NDIRECT + 1 + j)
      ensures addr == 0 ==> AllMarked(V())
      ensures addr != 0 && Slot(old(V()), i, NDIRECT + 1 + j) == 0 ==> blocks[addr] == Zero()
    {
      hide Bit, InRange, Apart, Marked, Owned, Alloc, Extended, AllMarked, BitmapBlock, PutWord;
      ghost var a := V();
      ExtendedSame(a, i, NDIRECT + j);
      var bp := blocks[d];
      addr := Word(bp, j);
      if addr == 0 {
        addr := Balloc({});
        if addr != 0 {
          AttachEntry(a, i, j, addr);
          bp := PutWord(bp, j, addr);
          blocks := blocks[d := bp];
        }
      }
    }

    /** bfree of a block in use, so that it never panics. */
    method Bfree(b: nat, ghost extra: set<nat>, ghost gone: set<nat>)
      requires Good(V(), extra, gone) && Owned(V(), b) && b !in gone
      modifies this
      ensures IsData(old(V()), b) && BitmapBlock(sb, b) < |blocks| && V() == Unmark(old(V()), b)
      ensures Good(V(), extra, gone + {b}) && SameSlots(old(V()), V())
    {
      hide Slot, InRange, Apart, Marked, Owned, Bit, SameSlots;
      ghost var fs := V();
      FreeGood(fs, b, extra, gone);
      BitIs(fs, b);
      var bp := blocks[BitmapBlock(sb, b)];
      var bi := b % BPB;
      assert BitOf(bp[bi / 8], bi % 8);
      bp := bp[bi / 8 := bp[bi / 8] & !Mask(bi % 8)];
      blocks := blocks[BitmapBlock(sb, b) := bp];
    }
  }

  lemma SlotInRange(fs: Fs, i: nat, s: nat)
    requires Layout(fs) && InRange(fs) && i < |fs.inodes| && s < NSLOT
    ensures Slot(fs, i, s) != 0 ==> IsData(fs, Slot(fs, i, s))
  {
  }

  lemma SameBitmap(fs: Fs, b: nat, bi: nat)
    requires Layout(fs) && b % BPB == 0 && bi < BPB && b + bi < fs.sb.size
    ensures BitmapBlock(fs.sb, b + bi) == BitmapBlock(fs.sb, b) < |fs.blocks| && (b + bi) % BPB == bi
    ensures Bit(fs, b + bi) == BitOf(fs.blocks[BitmapBlock(fs.sb, b)][bi / 8], bi % 8)
  {
    BitmapBlockIsMeta(fs, b);
    assert (b + bi) / BPB == b / BPB && (b + bi) % BPB == bi;
  }

  lemma BitIs(fs: Fs, b: nat)
    requires BitmapBlock(fs.sb, b) < |fs.blocks|
    ensures Bit(fs, b) == BitOf(fs.blocks[BitmapBlock(fs.sb, b)][b % BPB / 8], b % BPB % 8)
  {
  }

  lemma AllocIs(fs: Fs, b: nat, bi: nat)
    requires Layout(fs) && b % BPB == 0 && bi < BPB && b + bi < fs.sb.size && BitmapBlock(fs.sb, b) < |fs.blocks|
    requires BitmapBlock(fs.sb, b + bi) == BitmapBlock(fs.sb, b) && (b + bi) % BPB == bi
    ensures var bp := fs.blocks[BitmapBlock(fs.sb, b)];
      Alloc(fs, b + bi) == SetBlock(SetBlock(fs, BitmapBlock(fs.sb, b), bp[bi / 8 := bp[bi / 8] | Mask(bi % 8)]),
          b + bi, Zero())
  {
  }
}
