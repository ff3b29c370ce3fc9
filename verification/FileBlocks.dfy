/**
Which block belongs to what in kernel/fs.c: the bitmap, the direct and indirect addresses of every
inode, and the bytes of every file, as a function of the blocks and the inodes.
*/
module FileBlocks {
  import opened DiskBlocks

  const NDIRECT: nat := 12
  const NINDIRECT: nat := BSIZE / 4
  const MAXFILE: nat := NDIRECT + NINDIRECT
  const NSLOT: nat := MAXFILE + 1  // the places of an inode that can hold a block number

  /** size blocks in all; those below meta (boot, super, log, inodes, bitmap) are never allocated. */
  datatype Super = Super(size: nat, meta: nat, bmapstart: nat)

  datatype Inode = Inode(addrs: seq<nat>, size: nat)

  datatype Fs = Fs(sb: Super, blocks: seq<Block>, inodes: seq<Inode>)

  ghost predicate Layout(fs: Fs) {
    && |fs.blocks| == fs.sb.size < 0x8000_0000 && 0 < fs.sb.meta <= fs.sb.size
    && fs.sb.bmapstart + (fs.sb.size - 1) / BPB < fs.sb.meta
    && (forall i :: 0 <= i < |fs.inodes| ==> |fs.inodes[i].addrs| == NDIRECT + 1)
  }

  /** BBLOCK(b, sb) */
  function BitmapBlock(sb: Super, b: nat): nat {
    b / BPB + sb.bmapstart
  }

  lemma BitmapBlockIsMeta(fs: Fs, b: nat)
    requires Layout(fs) && b < fs.sb.size
    ensures BitmapBlock(fs.sb, b) < fs.sb.meta <= |fs.blocks|
  {
    assert b / BPB <= (fs.sb.size - 1) / BPB;
  }

  predicate Bit(fs: Fs, b: nat)
    requires BitmapBlock(fs.sb, b) < |fs.blocks|
  {
    BlockBit(fs.blocks[BitmapBlock(fs.sb, b)], b % BPB)
  }

  /** A block number that may be handed out. */
  predicate IsData(fs: Fs, b: nat) {
    fs.sb.meta <= b < |fs.blocks|
  }

  /** Slots 0..11 are the direct addresses, 12 the indirect block, 13.. the entries in it. */
  function Slot(fs: Fs, i: nat, s: nat): (b: nat)
    requires i < |fs.inodes| && s < NSLOT && |fs.inodes[i].addrs| == NDIRECT + 1
  {
    if s <= NDIRECT then fs.inodes[i].addrs[s]
    else if IsData(fs, fs.inodes[i].addrs[NDIRECT]) then Word(fs.blocks[fs.inodes[i].addrs[NDIRECT]], s - NDIRECT - 1)
    else 0
  }

  /** The slot of the bn-th block of a file. */
  function FileSlot(bn: nat): nat {
    if bn < NDIRECT then bn else bn + 1
  }

  ghost predicate InRange(fs: Fs)
    requires Layout(fs)
  {
    forall i, s :: 0 <= i < |fs.inodes| && 0 <= s < NSLOT ==> Slot(fs, i, s) == 0 || IsData(fs, Slot(fs, i, s))
  }

  /** Slots (i, s) and (j, t) do not share a block. */
  ghost predicate SlotsApart(fs: Fs, i: nat, s: nat, j: nat, t: nat)
    requires Layout(fs) && i < |fs.inodes| && j < |fs.inodes| && s < NSLOT && t < NSLOT
  {
    Slot(fs, i, s) == Slot(fs, j, t) != 0 ==> i == j && s == t
  }

  ghost predicate Apart(fs: Fs)
    requires Layout(fs)
  {
    forall i, s, j, t :: 0 <= i < |fs.inodes| && 0 <= s < NSLOT && 0 <= j < |fs.inodes| && 0 <= t < NSLOT ==>
      SlotsApart(fs, i, s, j, t)
  }

  ghost predicate Owned(fs: Fs, b: nat)
    requires Layout(fs)
  {
    b != 0 && exists i, s :: 0 <= i < |fs.inodes| && 0 <= s < NSLOT && Slot(fs, i, s) == b
  }

  /**
  The bitmap says exactly what is in use: metadata, the blocks of inodes, and those in extra, which
  balloc has returned and no inode points to yet. gone is what an unfinished itrunc has freed already.
  */
  ghost predicate MarkedAt(fs: Fs, extra: set<nat>, gone: set<nat>, b: nat)
    requires Layout(fs) && b < fs.sb.size
  {
    && BitmapBlock(fs.sb, b) < |fs.blocks|
    && (Bit(fs, b) <==> b < fs.sb.meta || b in extra || (Owned(fs, b) && b !in gone))
  }

  ghost predicate Marked(fs: Fs, extra: set<nat>, gone: set<nat>)
    requires Layout(fs)
  {
    && (forall b :: 0 <= b < fs.sb.size ==> MarkedAt(fs, extra, gone, b))
    && (forall b <- extra :: IsData(fs, b) && !Owned(fs, b))
  }

  ghost predicate Good(fs: Fs, extra: set<nat>, gone: set<nat>) {
    Layout(fs) && InRange(fs) && Apart(fs) && Marked(fs, extra, gone)
  }

  /** Every block of the file below its size is there. */
  ghost predicate NoHoles(fs: Fs, i: nat)
    requires Layout(fs) && i < |fs.inodes|
  {
    && fs.inodes[i].size <= MAXFILE * BSIZE
    && forall bn: nat :: bn < MAXFILE && bn * BSIZE < fs.inodes[i].size ==> Slot(fs, i, FileSlot(bn)) != 0
  }

  ghost predicate NoHolesAnywhere(fs: Fs)
    requires Layout(fs)
  {
    forall i :: 0 <= i < |fs.inodes| ==> NoHoles(fs, i)
  }

  // ---- the writes ----

  function SetBlock(fs: Fs, b: nat, d: Block): Fs
    requires b < |fs.blocks|
  {
    fs.(blocks := fs.blocks[b := d])
  }

  function Mark(fs: Fs, b: nat): Fs
    requires BitmapBlock(fs.sb, b) < |fs.blocks|
  {
    SetBlock(fs, BitmapBlock(fs.sb, b), SetBit(fs.blocks[BitmapBlock(fs.sb, b)], b % BPB))
  }

  function Unmark(fs: Fs, b: nat): Fs
    requires BitmapBlock(fs.sb, b) < |fs.blocks|
  {
    SetBlock(fs, BitmapBlock(fs.sb, b), ClearBit(fs.blocks[BitmapBlock(fs.sb, b)], b % BPB))
  }

  function SetAddr(fs: Fs, i: nat, s: nat, b: nat): Fs
    requires i < |fs.inodes| && s < |fs.inodes[i].addrs|
  {
    fs.(inodes := fs.inodes[i := fs.inodes[i].(addrs := fs.inodes[i].addrs[s := b])])
  }

  function SetSize(fs: Fs, i: nat, n: nat): Fs
    requires i < |fs.inodes|
  {
    fs.(inodes := fs.inodes[i := fs.inodes[i].(size := n)])
  }

  /** No slot of any inode changes. */
  ghost predicate SameSlots(a: Fs, b: Fs) {
    && Layout(a) && Layout(b) && a.sb == b.sb && |a.inodes| == |b.inodes|
    && forall i, s :: 0 <= i < |a.inodes| && 0 <= s < NSLOT ==> Slot(b, i, s) == Slot(a, i, s)
  }

  ghost predicate SameBits(a: Fs, b: Fs)
    requires Layout(a) && Layout(b) && a.sb == b.sb
  {
    forall c :: 0 <= c < a.sb.size ==> SameBit(a, b, c)
  }

  predicate SameBit(a: Fs, b: Fs, c: nat) {
    && BitmapBlock(a.sb, c) < |a.blocks| && BitmapBlock(b.sb, c) < |b.blocks|
    && Bit(b, c) == Bit(a, c)
  }

  lemma MarkBits(fs: Fs, b: nat, c: nat)
    requires Layout(fs) && b < fs.sb.size && c < fs.sb.size
    ensures BitmapBlock(fs.sb, b) < |fs.blocks| && BitmapBlock(fs.sb, c) < |fs.blocks|
    ensures Bit(Mark(fs, b), c) == (c == b || Bit(fs, c))
    ensures Bit(Unmark(fs, b), c) == (c != b && Bit(fs, c))
  {
    hide SetBit, ClearBit, BlockBit;
    BitmapBlockIsMeta(fs, b);
    BitmapBlockIsMeta(fs, c);
    BlockBitsApart(fs.blocks[BitmapBlock(fs.sb, b)], b % BPB, c % BPB);
    assert c == c / BPB * BPB + c % BPB && b == b / BPB * BPB + b % BPB;
  }

  /** Writing below meta moves no slot. */
  lemma MetaWriteSlots(fs: Fs, b: nat, d: Block)
    requires Layout(fs) && b < fs.sb.meta
    ensures SameSlots(fs, SetBlock(fs, b, d))
  {
    hide Word;
  }

  lemma MarkSlots(fs: Fs, b: nat)
    requires Layout(fs) && b < fs.sb.size
    ensures BitmapBlock(fs.sb, b) < |fs.blocks|
    ensures SameSlots(fs, Mark(fs, b)) && SameSlots(fs, Unmark(fs, b))
  {
    BitmapBlockIsMeta(fs, b);
    MetaWriteSlots(fs, BitmapBlock(fs.sb, b), SetBit(fs.blocks[BitmapBlock(fs.sb, b)], b % BPB));
    MetaWriteSlots(fs, BitmapBlock(fs.sb, b), ClearBit(fs.blocks[BitmapBlock(fs.sb, b)], b % BPB));
  }

  ghost predicate NotIndirect(fs: Fs, b: nat)
    requires Layout(fs)
  {
    forall i :: 0 <= i < |fs.inodes| ==> fs.inodes[i].addrs[NDIRECT] != b
  }

  /** Writing a block that is no indirect block moves no slot, and no bit. */
  lemma DataWriteSlots(fs: Fs, b: nat, d: Block)
    requires Layout(fs) && IsData(fs, b) && NotIndirect(fs, b)
    ensures SameSlots(fs, SetBlock(fs, b, d)) && SameBits(fs, SetBlock(fs, b, d))
  {
    hide Word, BlockBit;
    var r := SetBlock(fs, b, d);
    forall c | 0 <= c < fs.sb.size ensures SameBit(fs, r, c) {
      BitmapBlockIsMeta(fs, c);
    }
  }

  lemma SameSlotsOwned(a: Fs, b: Fs)
    requires SameSlots(a, b)
    ensures forall c :: Owned(a, c) <==> Owned(b, c)
  {
    hide Slot;
    forall c ensures Owned(a, c) <==> Owned(b, c) {
      if Owned(a, c) {
        var i, s :| 0 <= i < |a.inodes| && 0 <= s < NSLOT && Slot(a, i, s) == c;
        assert Slot(b, i, s) == c;
      }
      if Owned(b, c) {
        var i, s :| 0 <= i < |b.inodes| && 0 <= s < NSLOT && Slot(b, i, s) == c;
        assert Slot(a, i, s) == c;
      }
    }
  }

  lemma SameSlotsGood(a: Fs, b: Fs)
    requires Layout(a) && InRange(a) && Apart(a) && SameSlots(a, b)
    ensures InRange(b) && Apart(b)
  {
    hide Slot;
    forall i, s, j, t | 0 <= i < |b.inodes| && 0 <= s < NSLOT && 0 <= j < |b.inodes| && 0 <= t < NSLOT
      ensures SlotsApart(b, i, s, j, t)
    {
      assert SlotsApart(a, i, s, j, t);
    }
  }

  // ---- balloc and bfree ----

  /** b marked in use and zeroed. */
  function Alloc(fs: Fs, b: nat): Fs
    requires BitmapBlock(fs.sb, b) < |fs.blocks| && b < |fs.blocks|
  {
    SetBlock(Mark(fs, b), b, Zero())
  }

  lemma ClearIsFree(fs: Fs, b: nat, extra: set<nat>)
    requires Good(fs, extra, {}) && b < fs.sb.size && BitmapBlock(fs.sb, b) < |fs.blocks| && !Bit(fs, b)
    ensures IsData(fs, b) && b !in extra && !Owned(fs, b) && b != 0
  {
    hide Slot, Bit, BitmapBlock, Owned;
    assert MarkedAt(fs, extra, {}, b);
  }

  lemma UnownedNotIndirect(fs: Fs, b: nat)
    requires Layout(fs) && !Owned(fs, b) && b != 0
    ensures NotIndirect(fs, b)
  {
    forall i | 0 <= i < |fs.inodes| ensures fs.inodes[i].addrs[NDIRECT] != b {
      assert Slot(fs, i, NDIRECT) == fs.inodes[i].addrs[NDIRECT];
    }
  }

  lemma AllocFacts(fs: Fs, b: nat)
    requires Layout(fs) && IsData(fs, b) && b != 0 && !Owned(fs, b)
    ensures BitmapBlock(fs.sb, b) < |fs.blocks|
    ensures SameSlots(fs, Alloc(fs, b)) && Alloc(fs, b).inodes == fs.inodes
    ensures forall c: nat :: c < fs.sb.size ==>
              BitmapBlock(fs.sb, c) < |fs.blocks| && Bit(Alloc(fs, b), c) == (c == b || Bit(fs, c))
    ensures forall c: nat :: IsData(fs, c) && c != b ==> Alloc(fs, b).blocks[c] == fs.blocks[c]
    ensures Alloc(fs, b).blocks[b] == Zero()
  {
    hide Slot, Owned, Bit;
    BitmapBlockIsMeta(fs, b);
    MarkSlots(fs, b);
    SameSlotsOwned(fs, Mark(fs, b));
    UnownedNotIndirect(Mark(fs, b), b);
    DataWriteSlots(Mark(fs, b), b, Zero());
    forall c: nat | c < fs.sb.size
      ensures BitmapBlock(fs.sb, c) < |fs.blocks| && Bit(Alloc(fs, b), c) == (c == b || Bit(fs, c))
    {
      BitmapBlockIsMeta(fs, c);
      MarkBits(fs, b, c);
      SameBitsAt(Mark(fs, b), Alloc(fs, b), c);
    }
  }

  lemma AllocGood(fs: Fs, b: nat, extra: set<nat>)
    requires Good(fs, extra, {}) && IsData(fs, b) && b != 0 && !Owned(fs, b)
    ensures BitmapBlock(fs.sb, b) < |fs.blocks| && Good(Alloc(fs, b), extra + {b}, {})
  {
    hide Slot, Owned, Bit, BitmapBlock, InRange, Apart, SameSlots;
    AllocFacts(fs, b);
    var r := Alloc(fs, b);
    SameSlotsLayout(fs, r);
    SameSlotsGood(fs, r);
    SameSlotsOwned(fs, r);
    forall c | 0 <= c < r.sb.size ensures MarkedAt(r, extra + {b}, {}, c) { assert MarkedAt(fs, extra, {}, c); }
  }

  lemma SameSlotsLayout(a: Fs, b: Fs)
    requires SameSlots(a, b)
    ensures Layout(a) && Layout(b) && a.sb == b.sb
  {
  }

  /** bfree of a block in use. */
  lemma FreeGood(fs: Fs, b: nat, extra: set<nat>, gone: set<nat>)
    requires Good(fs, extra, gone) && Owned(fs, b) && b !in gone
    ensures IsData(fs, b) && BitmapBlock(fs.sb, b) < |fs.blocks| && Bit(fs, b)
    ensures Good(Unmark(fs, b), extra, gone + {b}) && SameSlots(fs, Unmark(fs, b))
  {
    hide Slot, Bit, BitmapBlock, Apart;
    OwnedIsData(fs, b);
    BitmapBlockIsMeta(fs, b);
    MarkSlots(fs, b);
    assert MarkedAt(fs, extra, gone, b);
    hide SameSlots, InRange, Owned;
    var r := Unmark(fs, b);
    SameSlotsLayout(fs, r);
    SameSlotsGood(fs, r);
    SameSlotsOwned(fs, r);
    forall c: nat | c < r.sb.size ensures MarkedAt(r, extra, gone + {b}, c) {
      assert MarkedAt(fs, extra, gone, c);
      MarkBits(fs, b, c);
    }
  }

  lemma OwnedIsData(fs: Fs, b: nat)
    requires Layout(fs) && InRange(fs) && Owned(fs, b)
    ensures IsData(fs, b) && b < fs.sb.size
  {
    hide Slot;
    var i, s :| 0 <= i < |fs.inodes| && 0 <= s < NSLOT && Slot(fs, i, s) == b;
  }

  // ---- changes to slots ----

  /** b is a, but for slot (i, s), and perhaps contents of blocks that are not indirect. */
  ghost predicate SlotSet(a: Fs, b: Fs, i: nat, s: nat) {
    && Layout(a) && Layout(b) && a.sb == b.sb && |a.inodes| == |b.inodes| && i < |a.inodes| && s < NSLOT
    && SameBits(a, b)
    && forall j, t :: 0 <= j < |a.inodes| && 0 <= t < NSLOT && (j != i || t != s) ==> Slot(b, j, t) == Slot(a, j, t)
  }

  lemma SlotSetOwned(a: Fs, b: Fs, i: nat, s: nat, c: nat)
    requires SlotSet(a, b, i, s) && c != 0 && Apart(a)
    ensures Owned(b, c) <==> (Owned(a, c) && c != Slot(a, i, s)) || c == Slot(b, i, s)
  {
    hide Slot, SameBits;
    if Owned(a, c) && c != Slot(a, i, s) {
      var j, t :| 0 <= j < |a.inodes| && 0 <= t < NSLOT && Slot(a, j, t) == c;
      assert Slot(b, j, t) == c;
    }
    if Owned(b, c) && c != Slot(b, i, s) {
      var j, t :| 0 <= j < |b.inodes| && 0 <= t < NSLOT && Slot(b, j, t) == c;
      assert Slot(a, j, t) == c;
      assert SlotsApart(a, j, t, i, s);
    }
  }

  lemma SlotSetGood(a: Fs, b: Fs, i: nat, s: nat)
    requires SlotSet(a, b, i, s) && InRange(a) && Apart(a)
    requires Slot(b, i, s) == 0 || (IsData(b, Slot(b, i, s)) && !Owned(a, Slot(b, i, s)))
    ensures InRange(b) && Apart(b)
  {
    hide Slot, SameBits;
    forall j, t, k, u | 0 <= j < |b.inodes| && 0 <= t < NSLOT && 0 <= k < |b.inodes| && 0 <= u < NSLOT
      ensures SlotsApart(b, j, t, k, u)
    {
      assert SlotsApart(a, j, t, k, u);
    }
  }

  lemma AttachGood(a: Fs, b: Fs, i: nat, s: nat, extra: set<nat>)
    requires SlotSet(a, b, i, s) && Good(a, extra, {}) && Slot(a, i, s) == 0 && Slot(b, i, s) in extra
    ensures Good(b, extra - {Slot(b, i, s)}, {})
  {
    var x := Slot(b, i, s);
    hide Slot, Bit, Owned, SlotSet;
    SlotSetFacts(a, b, i, s);
    SlotSetGood(a, b, i, s);
    forall c: nat | c < b.sb.size ensures MarkedAt(b, extra - {x}, {}, c) {
      assert MarkedAt(a, extra, {}, c);
      SameBitsAt(a, b, c);
      if c != 0 { SlotSetOwned(a, b, i, s, c); } else { NoneOwnsZero(a); NoneOwnsZero(b); }
    }
    forall c | c in extra && c != x ensures !Owned(b, c) { SlotSetOwned(a, b, i, s, c); }
  }

  lemma NoneOwnsZero(fs: Fs)
    requires Layout(fs)
    ensures !Owned(fs, 0)
  {
  }

  lemma SlotSetFacts(a: Fs, b: Fs, i: nat, s: nat)
    requires SlotSet(a, b, i, s)
    ensures Layout(a) && Layout(b) && a.sb == b.sb && SameBits(a, b) && |a.inodes| == |b.inodes|
  {
  }

  lemma SameBitsAt(a: Fs, b: Fs, c: nat)
    requires Layout(a) && Layout(b) && a.sb == b.sb && SameBits(a, b) && c < a.sb.size
    ensures BitmapBlock(a.sb, c) < |a.blocks| && BitmapBlock(b.sb, c) < |b.blocks| && Bit(a, c) == Bit(b, c)
  {
    hide Bit;
    assert SameBit(a, b, c);
  }

  lemma SameBlocksBits(a: Fs, b: Fs)
    requires Layout(a) && Layout(b) && a.sb == b.sb && a.blocks == b.blocks
    ensures SameBits(a, b)
  {
    forall c | 0 <= c < a.sb.size ensures SameBit(a, b, c) { BitmapBlockIsMeta(a, c); }
  }

  lemma DetachGood(a: Fs, b: Fs, i: nat, s: nat, extra: set<nat>, gone: set<nat>)
    requires SlotSet(a, b, i, s) && Good(a, extra, gone) && Slot(b, i, s) == 0 && Slot(a, i, s) in gone
    ensures Good(b, extra, gone - {Slot(a, i, s)})
  {
    var x := Slot(a, i, s);
    hide Slot, Bit, Owned, SlotSet;
    SlotSetFacts(a, b, i, s);
    SlotSetGood(a, b, i, s);
    forall c: nat | c < b.sb.size ensures MarkedAt(b, extra, gone - {x}, c) {
      assert MarkedAt(a, extra, gone, c);
      SameBitsAt(a, b, c);
      if c != 0 { SlotSetOwned(a, b, i, s, c); } else { NoneOwnsZero(a); NoneOwnsZero(b); }
    }
    forall c | c in extra ensures !Owned(b, c) { if c != 0 { SlotSetOwned(a, b, i, s, c); } else { NoneOwnsZero(b); } }
  }

  lemma SetAddrDirect(fs: Fs, i: nat, s: nat, b: nat)
    requires Layout(fs) && i < |fs.inodes| && s < NDIRECT
    ensures SlotSet(fs, SetAddr(fs, i, s, b), i, s) && Slot(SetAddr(fs, i, s, b), i, s) == b
  {
    hide Word, Bit;
    SameBlocksBits(fs, SetAddr(fs, i, s, b));
  }

  lemma SetAddrIndirect(fs: Fs, i: nat, b: nat)
    requires Layout(fs) && i < |fs.inodes| && fs.inodes[i].addrs[NDIRECT] == 0 && IsData(fs, b)
    requires fs.blocks[b] == Zero()
    ensures SlotSet(fs, SetAddr(fs, i, NDIRECT, b), i, NDIRECT) && Slot(SetAddr(fs, i, NDIRECT, b), i, NDIRECT) == b
  {
    hide Word, Bit;
    SameBlocksBits(fs, SetAddr(fs, i, NDIRECT, b));
    forall j: nat | j < BSIZE / 4 ensures Word(Zero(), j) == 0 { ZeroWords(j); }
  }

  /** The indirect block of inode i, with entry j set to w. */
  function SetEntry(fs: Fs, i: nat, j: nat, w: nat): Fs
    requires i < |fs.inodes| && |fs.inodes[i].addrs| == NDIRECT + 1 && IsData(fs, fs.inodes[i].addrs[NDIRECT])
    requires j < NINDIRECT && w < UINT
  {
    var d := fs.inodes[i].addrs[NDIRECT];
    SetBlock(fs, d, PutWord(fs.blocks[d], j, w))
  }

  lemma SetEntrySlots(fs: Fs, i: nat, j: nat, w: nat)
    requires Layout(fs) && Apart(fs) && i < |fs.inodes| && IsData(fs, fs.inodes[i].addrs[NDIRECT]) && j < NINDIRECT
    requires w < UINT
    ensures SlotSet(fs, SetEntry(fs, i, j, w), i, NDIRECT + 1 + j)
    ensures Slot(SetEntry(fs, i, j, w), i, NDIRECT + 1 + j) == w
  {
    hide Word, Bit, PutWord;
    var r := SetEntry(fs, i, j, w);
    var d := fs.inodes[i].addrs[NDIRECT];
    assert Layout(r);
    forall c | 0 <= c < fs.sb.size ensures SameBit(fs, r, c) {
      BitmapBlockIsMeta(fs, c);
      SameBitmapBlock(fs, r, c);
    }
    forall k, t | 0 <= k < |fs.inodes| && 0 <= t < NSLOT
      ensures Slot(r, k, t) == if k == i && t == NDIRECT + 1 + j then w else Slot(fs, k, t)
    {
      if t > NDIRECT { WordsApart(fs.blocks[d], j, w, t - NDIRECT - 1); }
      if k != i { assert SlotsApart(fs, k, NDIRECT, i, NDIRECT); }
    }
  }

  lemma SameBitmapBlock(a: Fs, b: Fs, c: nat)
    requires a.sb == b.sb && BitmapBlock(a.sb, c) < |a.blocks| && BitmapBlock(a.sb, c) < |b.blocks|
    requires a.blocks[BitmapBlock(a.sb, c)] == b.blocks[BitmapBlock(a.sb, c)]
    ensures Bit(a, c) == Bit(b, c)
  {
  }

  /** itrunc drops the indirect block, all of whose blocks it has freed. */
  lemma DropIndirectGood(fs: Fs, i: nat, extra: set<nat>, gone: set<nat>)
    requires Good(fs, extra, gone) && i < |fs.inodes|
    requires forall s :: NDIRECT <= s < NSLOT && Slot(fs, i, s) != 0 ==> Slot(fs, i, s) in gone
    requires forall c <- gone :: exists s :: NDIRECT <= s < NSLOT && Slot(fs, i, s) == c != 0
    ensures Good(SetAddr(fs, i, NDIRECT, 0), extra, {})
    ensures forall j, s :: 0 <= j < |fs.inodes| && 0 <= s < NSLOT ==>
              Slot(SetAddr(fs, i, NDIRECT, 0), j, s) == if j == i && s >= NDIRECT then 0 else Slot(fs, j, s)
  {
    var r := SetAddr(fs, i, NDIRECT, 0);
    DropIndirectSlots(fs, i);
    hide Slot, Bit, Owned, SetAddr;
    forall c: nat ensures c != 0 ==> (Owned(r, c) <==> Owned(fs, c) && c !in gone) {
      if c != 0 { DropIndirectOwned(fs, r, i, gone, c); }
    }
    forall j, t, k, u | 0 <= j < |r.inodes| && 0 <= t < NSLOT && 0 <= k < |r.inodes| && 0 <= u < NSLOT
      ensures SlotsApart(r, j, t, k, u)
    {
      assert SlotsApart(fs, j, t, k, u);
    }
    forall c: nat | c < r.sb.size ensures MarkedAt(r, extra, {}, c) {
      assert MarkedAt(fs, extra, gone, c);
      SameBitsAt(fs, r, c);
      if c == 0 { NoneOwnsZero(fs); NoneOwnsZero(r); }
    }
    forall c | c in extra ensures !Owned(r, c) { if c == 0 { NoneOwnsZero(r); } }
  }

  lemma DropIndirectSlots(fs: Fs, i: nat)
    requires Layout(fs) && i < |fs.inodes|
    ensures var r := SetAddr(fs, i, NDIRECT, 0);
      Layout(r) && r.sb == fs.sb && |r.inodes| == |fs.inodes| && r.blocks == fs.blocks && SameBits(fs, r)
    ensures forall j, s :: 0 <= j < |fs.inodes| && 0 <= s < NSLOT ==>
              Slot(SetAddr(fs, i, NDIRECT, 0), j, s) == if j == i && s >= NDIRECT then 0 else Slot(fs, j, s)
  {
    hide Word, Bit;
    SameBlocksBits(fs, SetAddr(fs, i, NDIRECT, 0));
  }

  lemma DropIndirectOwned(fs: Fs, r: Fs, i: nat, gone: set<nat>, c: nat)
    requires Layout(fs) && Layout(r) && Apart(fs) && |r.inodes| == |fs.inodes| && i < |fs.inodes| && c != 0
    requires forall j, s :: 0 <= j < |fs.inodes| && 0 <= s < NSLOT ==>
               Slot(r, j, s) == if j == i && s >= NDIRECT then 0 else Slot(fs, j, s)
    requires forall s :: NDIRECT <= s < NSLOT && Slot(fs, i, s) != 0 ==> Slot(fs, i, s) in gone
    requires forall c <- gone :: exists s :: NDIRECT <= s < NSLOT && Slot(fs, i, s) == c != 0
    ensures Owned(r, c) <==> Owned(fs, c) && c !in gone
  {
    hide Slot;
    if Owned(fs, c) && c !in gone {
      var j, t :| 0 <= j < |fs.inodes| && 0 <= t < NSLOT && Slot(fs, j, t) == c;
      assert Slot(r, j, t) == c;
    }
    if Owned(r, c) {
      var j, t :| 0 <= j < |r.inodes| && 0 <= t < NSLOT && Slot(r, j, t) == c;
      assert Slot(fs, j, t) == c;
      forall s: nat | NDIRECT <= s < NSLOT ensures Slot(fs, i, s) != c { assert SlotsApart(fs, i, s, j, t); }
    }
  }

  // ---- the bytes of a file ----

  /** Byte k of file i, whether below its size or not. */
  function FileByte(fs: Fs, i: nat, k: nat): Byte
    requires i < |fs.inodes| && |fs.inodes[i].addrs| == NDIRECT + 1 && k < MAXFILE * BSIZE
  {
    var b := Slot(fs, i, FileSlot(k / BSIZE));
    if IsData(fs, b) then fs.blocks[b][k % BSIZE] else 0
  }

  /**
  Where the bytes are: in the direct blocks first, and then in those the indirect block names, with four bytes
  for each number, the lowest first.
  */
  lemma FileByteIs(fs: Fs, i: nat, k: nat)
    requires i < |fs.inodes| && |fs.inodes[i].addrs| == NDIRECT + 1 && k < MAXFILE * BSIZE
    ensures k < 12 * 1024 && IsData(fs, fs.inodes[i].addrs[k / 1024]) ==>
              FileByte(fs, i, k) == fs.blocks[fs.inodes[i].addrs[k / 1024]][k % 1024]
    ensures k >= 12 * 1024 && IsData(fs, fs.inodes[i].addrs[12]) ==>
              var b := Little(fs.blocks[fs.inodes[i].addrs[12]], 4 * (k / 1024 - 12));
              IsData(fs, b) ==> FileByte(fs, i, k) == fs.blocks[b][k % 1024]
  {
    hide Word, FileByte, Slot, FileSlot, Little;
    assert k / 1024 < MAXFILE && (k < 12 * 1024 <==> k / 1024 < 12);
    ByteInBlock(fs, i, k, k / 1024);
    SlotOf(fs, i, k / 1024);
    if k / 1024 >= 12 && IsData(fs, fs.inodes[i].addrs[12]) {
      WordIs(fs.blocks[fs.inodes[i].addrs[12]], k / 1024 - 12);
    }
  }

  lemma ByteInBlock(fs: Fs, i: nat, k: nat, bn: nat)
    requires i < |fs.inodes| && |fs.inodes[i].addrs| == NDIRECT + 1 && k < MAXFILE * BSIZE && bn == k / BSIZE < MAXFILE
    ensures var b := Slot(fs, i, FileSlot(bn)); IsData(fs, b) ==> FileByte(fs, i, k) == fs.blocks[b][k % BSIZE]
  {
    hide Slot, FileSlot;
  }

  lemma SlotOf(fs: Fs, i: nat, bn: nat)
    requires i < |fs.inodes| && |fs.inodes[i].addrs| == NDIRECT + 1 && bn < MAXFILE
    ensures FileSlot(bn) < NSLOT
    ensures bn < 12 ==> Slot(fs, i, FileSlot(bn)) == fs.inodes[i].addrs[bn]
    ensures bn >= 12 && IsData(fs, fs.inodes[i].addrs[12]) ==>
              Slot(fs, i, FileSlot(bn)) == Word(fs.blocks[fs.inodes[i].addrs[12]], bn - 12)
  {
    hide Word;
  }

  /** Which bit is a block's: the lowest bit of a byte first, and the blocks of the bitmap in order. */
  lemma BitmapBit(fs: Fs, b: nat)
    requires BitmapBlock(fs.sb, b) < |fs.blocks|
    ensures fs.sb.bmapstart + b / 8192 < |fs.blocks|
    ensures Bit(fs, b) <==> fs.blocks[fs.sb.bmapstart + b / 8192][b % 8192 / 8] & (1 << (b % 8)) != 0
  {
    hide Mask;
    MaskIs(b % 8);
    assert b % 8192 % 8 == b % 8;
  }

  /** The contents of file i. */
  function Content(fs: Fs, i: nat): (s: seq<Byte>)
    requires i < |fs.inodes| && |fs.inodes[i].addrs| == NDIRECT + 1 && fs.inodes[i].size <= MAXFILE * BSIZE
    ensures |s| == fs.inodes[i].size
  {
    seq(fs.inodes[i].size, k requires 0 <= k < fs.inodes[i].size => FileByte(fs, i, k))
  }

  ghost predicate SameShape(a: Fs, b: Fs) {
    && Layout(a) && Layout(b) && a.sb == b.sb && |a.inodes| == |b.inodes|
    && forall j :: 0 <= j < |a.inodes| ==> a.inodes[j].size == b.inodes[j].size
  }

  /** Blocks of file data keep their bytes. */
  ghost predicate KeptData(a: Fs, b: Fs)
    requires Layout(a) && Layout(b) && a.sb == b.sb
  {
    forall j, s :: 0 <= j < |a.inodes| && 0 <= s < NSLOT && s != NDIRECT && IsData(a, Slot(a, j, s)) ==>
      b.blocks[Slot(a, j, s)] == a.blocks[Slot(a, j, s)]
  }

  /** b is what bmap(i, bn) may make of a. */
  ghost predicate Extended(a: Fs, b: Fs, i: nat, bn: nat) {
    && SameShape(a, b) && KeptData(a, b) && i < |a.inodes| && bn < MAXFILE
    && (forall j, s :: 0 <= j < |a.inodes| && 0 <= s < NSLOT && (j != i || (s != NDIRECT && s != FileSlot(bn))) ==>
          Slot(b, j, s) == Slot(a, j, s))
    && (Slot(a, i, FileSlot(bn)) != 0 ==> a == b)
  }

  /** File j has the same size, blocks and bytes. */
  ghost predicate Untouched(a: Fs, b: Fs, j: nat) {
    && Layout(a) && Layout(b) && a.sb == b.sb && |a.inodes| == |b.inodes| && j < |a.inodes| &&
       b.inodes[j].size == a.inodes[j].size
    && forall s :: 0 <= s < NSLOT ==>
         && Slot(b, j, s) == Slot(a, j, s)
         && (s != NDIRECT && IsData(a, Slot(a, j, s)) ==> b.blocks[Slot(a, j, s)] == a.blocks[Slot(a, j, s)])
  }

  lemma UntouchedContent(a: Fs, b: Fs, j: nat)
    requires Untouched(a, b, j) && NoHoles(a, j)
    ensures NoHoles(b, j) && Content(b, j) == Content(a, j)
  {
    hide Slot;
    forall k | 0 <= k < a.inodes[j].size ensures FileByte(b, j, k) == FileByte(a, j, k) {
      assert Slot(b, j, FileSlot(k / BSIZE)) == Slot(a, j, FileSlot(k / BSIZE));
    }
  }

  lemma UntouchedOn(a: Fs, b: Fs, c: Fs, j: nat)
    requires Untouched(a, b, j) && Untouched(b, c, j)
    ensures Untouched(a, c, j)
  {
    hide Slot;
  }

  lemma ExtendedUntouched(a: Fs, b: Fs, i: nat, bn: nat, j: nat)
    requires Extended(a, b, i, bn) && j < |a.inodes| && j != i
    ensures Untouched(a, b, j)
  {
    hide Slot;
  }

  /** bmap leaves every byte that was there. */
  lemma ExtendedBytes(a: Fs, b: Fs, i: nat, bn: nat, k: nat)
    requires Extended(a, b, i, bn) && k < MAXFILE * BSIZE && InRange(a) && Slot(a, i, FileSlot(k / BSIZE)) != 0
    ensures FileByte(b, i, k) == FileByte(a, i, k) && Slot(b, i, FileSlot(k / BSIZE)) == Slot(a, i, FileSlot(k / BSIZE))
  {
    hide Slot;
    assert Slot(b, i, FileSlot(k / BSIZE)) == Slot(a, i, FileSlot(k / BSIZE));
  }
}
