/**
The words of PageTree as the leaf entries of PageRefs, whose frames are counted from the first page
kalloc manages: what the kernel does to a word is what the copy-on-write model does to an entry.
*/
module PageEntries {
  import opened Bits
  import opened Wrappers
  import PageRefs
  import opened PageTree

  const PTE_W: nat := 4
  const PTE_COW: nat := 32

  /** A flag of a word, by its value. */
  predicate Flag(w: nat, bit: nat)
    requires bit > 0
  {
    w / bit % 2 == 1
  }

  /** w & ~bit */
  function Clear(w: nat, bit: nat): nat
    requires bit > 0
  {
    if Flag(w, bit) && w >= bit then w - bit else w
  }

  /** w | bit */
  function Set(w: nat, bit: nat): nat
    requires bit > 0
  {
    if Flag(w, bit) then w else w + bit
  }

  /** PTE_V and the flags of an entry */
  function Flags(p: PageRefs.Pte): (f: nat)
    ensures f < 64 && f % 2 == 1
  {
    1 + Weight(p.r, 2) + Weight(p.w, 4) + Weight(p.x, 8) + Weight(p.u, 16) + Weight(p.cow, 32)
  }

  /** The word for a leaf entry; base is the first managed page. */
  function Encode(base: Frame, p: PageRefs.Pte): Word
    requires base + p.frame < FRAMES
  {
    Entry(base + p.frame, Flags(p))
  }

  function Decode(base: Frame, w: Word): PageRefs.Pte
    requires FrameOf(w) >= base
  {
    PageRefs.Pte(FrameOf(w) - base, Flag(w, 2), Flag(w, 4), Flag(w, 8), Flag(w, 16), Flag(w, 32))
  }

  lemma FlagsBits(p: PageRefs.Pte)
    ensures Flag(Flags(p), 2) == p.r && Flag(Flags(p), 4) == p.w && Flag(Flags(p), 8) == p.x
    ensures Flag(Flags(p), 16) == p.u && Flag(Flags(p), 32) == p.cow
  {
  }

  /** The ten low bits: V, R, W, X, U, COW, A, D and two that are free for software. */
  const FLAGS: set<nat> := {1, 2, 4, 8, 16, 32, 64, 128, 256, 512}

  lemma Multiples(d: nat, a: nat, b: nat)
    ensures a > b ==> d * a >= d * b + d
  {
    if a > b {
      Multiples(d, a - 1, b);
      assert d * a == d * (a - 1) + d;
    }
  }

  lemma QuotientIs(w: nat, d: nat, q: nat, r: nat)
    requires w == d * q + r && r < d
    ensures w / d == q
  {
    var k := w / d;
    Multiples(d, k, q);
    Multiples(d, q, k);
  }

  /** A multiple of twice the bit above it does not reach a flag. */
  lemma LowFlag(flags: nat, bit: nat, h: nat)
    requires bit > 0
    ensures Flag(bit * (2 * h) + flags, bit) == Flag(flags, bit)
  {
    var q, r := flags / bit, flags % bit;
    assert bit * (2 * h) + flags == bit * (2 * h + q) + r by {
      assert flags == bit * q + r;
      assert bit * (2 * h + q) == bit * (2 * h) + bit * q;
    }
    QuotientIs(bit * (2 * h) + flags, bit, 2 * h + q, r);
    assert (2 * h + q) % 2 == q % 2;
  }

  /** They do not depend on what is above them. */
  lemma AnyFlag(q: nat, flags: nat)
    requires flags < 1024
    ensures forall b <- FLAGS :: Flag(q * 1024 + flags, b) == Flag(flags, b)
  {
    hide Flag;
    LowFlag(flags, 1, 512 * q);
    LowFlag(flags, 2, 256 * q);
    LowFlag(flags, 4, 128 * q);
    LowFlag(flags, 8, 64 * q);
    LowFlag(flags, 16, 32 * q);
    LowFlag(flags, 32, 16 * q);
    LowFlag(flags, 64, 8 * q);
    LowFlag(flags, 128, 4 * q);
    LowFlag(flags, 256, 2 * q);
    LowFlag(flags, 512, q);
  }

  /** The low bits of an entry are its flags, wherever it points. */
  lemma EntryFlag(f: Frame, flags: nat, b: nat)
    requires f < FRAMES && flags < 1024 && b in FLAGS
    ensures Flag(Entry(f, flags), b) == Flag(flags, b)
  {
    hide Flag;
    AnyFlag(f, flags);
  }

  /** Reading a word gives back the entry it was made from. */
  lemma RoundTrip(base: Frame, p: PageRefs.Pte)
    requires base + p.frame < FRAMES
    ensures IsValid(Encode(base, p)) && FrameOf(Encode(base, p)) >= base && Decode(base, Encode(base, p)) == p
  {
    hide Entry, FrameOf, IsValid, IsPointer, Flag, Flags;
    var f := base + p.frame;
    EntryParts(f, Flags(p));
    EntryFlag(f, Flags(p), 2);
    EntryFlag(f, Flags(p), 4);
    EntryFlag(f, Flags(p), 8);
    EntryFlag(f, Flags(p), 16);
    EntryFlag(f, Flags(p), 32);
    FlagsBits(p);
  }

  /** The tests the code makes of a word, and the bits Sv39 gives the permissions. */
  lemma EncodeBits(base: Frame, p: PageRefs.Pte)
    requires base + p.frame < FRAMES
    ensures var w := Encode(base, p);
      && IsValid(w) && (IsUser(w) <==> p.u) && (IsPointer(w) <==> !p.r && !p.w && !p.x)
      && (w / 2 % 2 == 1 <==> p.r) && (w / 4 % 2 == 1 <==> p.w) && (w / 8 % 2 == 1 <==> p.x)
      && (w / 16 % 2 == 1 <==> p.u) && (w / 32 % 2 == 1 <==> p.cow)
  {
    hide Entry, FrameOf, IsValid, IsPointer, Flags;
    var f := base + p.frame;
    EntryParts(f, Flags(p));
    EntryFlag(f, Flags(p), 2);
    EntryFlag(f, Flags(p), 4);
    EntryFlag(f, Flags(p), 8);
    EntryFlag(f, Flags(p), 16);
    EntryFlag(f, Flags(p), 32);
    FlagsBits(p);
    FlagsGroup(p);
  }

  lemma FlagsGroup(p: PageRefs.Pte)
    ensures Flags(p) / 2 % 8 == 0 <==> !p.r && !p.w && !p.x
  {
  }

  // ---- single flags of any word ----

  /** Numbers whose halves agree, and so on up. */
  lemma AboveFlags(v: nat, w: nat)
    requires v / 64 == w / 64
    ensures v / 1024 == w / 1024 && Flag(v, 64) == Flag(w, 64) && Flag(v, 128) == Flag(w, 128)
    ensures Flag(v, 256) == Flag(w, 256) && Flag(v, 512) == Flag(w, 512)
  {
    assert v / 128 == v / 64 / 2 && w / 128 == w / 64 / 2;
    assert v / 256 == v / 64 / 4 && w / 256 == w / 64 / 4;
    assert v / 512 == v / 64 / 8 && w / 512 == w / 64 / 8;
    assert v / 1024 == v / 64 / 16 && w / 1024 == w / 64 / 16;
  }

  lemma Above4(v: nat, w: nat)
    requires w == v + 4 && v / 4 % 2 == 0
    ensures v / 64 == w / 64 && Flag(v, 8) == Flag(w, 8) && Flag(v, 16) == Flag(w, 16) && Flag(v, 32) == Flag(w, 32)
  {
    assert w / 4 == v / 4 + 1;
    assert v / 8 == v / 4 / 2 == w / 4 / 2 == w / 8;
    assert v / 16 == v / 8 / 2 && w / 16 == w / 8 / 2;
    assert v / 32 == v / 8 / 4 && w / 32 == w / 8 / 4;
    assert v / 64 == v / 8 / 8 && w / 64 == w / 8 / 8;
  }

  lemma Below4(v: nat, w: nat)
    requires w == v + 4
    ensures Flag(v, 1) == Flag(w, 1) && Flag(v, 2) == Flag(w, 2)
  {
    hide Flag;
    LowFlag(v, 1, 2);
    LowFlag(v, 2, 1);
  }

  /** Changing bit 2 changes no other. */
  lemma FlipW(v: nat, w: nat)
    requires w == v + 4 && v / 4 % 2 == 0
    ensures v / 1024 == w / 1024 && forall b <- FLAGS :: b != 4 ==> Flag(v, b) == Flag(w, b)
  {
    hide Flag;
    Below4(v, w);
    Above4(v, w);
    AboveFlags(v, w);
  }

  lemma Above32(v: nat, w: nat)
    requires w == v + 32 && v / 32 % 2 == 0
    ensures v / 64 == w / 64
  {
    assert w / 32 == v / 32 + 1;
    assert v / 64 == v / 32 / 2 && w / 64 == w / 32 / 2;
  }

  lemma Below32(v: nat, w: nat)
    requires w == v + 32
    ensures Flag(v, 1) == Flag(w, 1) && Flag(v, 2) == Flag(w, 2) && Flag(v, 4) == Flag(w, 4)
    ensures Flag(v, 8) == Flag(w, 8) && Flag(v, 16) == Flag(w, 16)
  {
    hide Flag;
    LowFlag(v, 1, 16);
    LowFlag(v, 2, 8);
    LowFlag(v, 4, 4);
    LowFlag(v, 8, 2);
    LowFlag(v, 16, 1);
  }

  /** Changing bit 5 changes no other. */
  lemma FlipCow(v: nat, w: nat)
    requires w == v + 32 && v / 32 % 2 == 0
    ensures v / 1024 == w / 1024 && forall b <- FLAGS :: b != 32 ==> Flag(v, b) == Flag(w, b)
  {
    hide Flag;
    Below32(v, w);
    Above32(v, w);
    AboveFlags(v, w);
  }

  lemma SetW(w: nat)
    ensures Set(w, PTE_W) / 1024 == w / 1024
    ensures forall b <- FLAGS :: Flag(Set(w, PTE_W), b) == (b == PTE_W || Flag(w, b))
  {
    hide Flag;
    if !Flag(w, PTE_W) {
      RaiseW(w);
      FlipW(w, w + 4);
    }
  }

  lemma RaiseW(w: nat)
    requires !Flag(w, 4)
    ensures w / 4 % 2 == 0 && Flag(w + 4, 4)
  {
    assert (w + 4) / 4 == w / 4 + 1;
  }

  lemma ClearW(w: nat)
    ensures Clear(w, PTE_W) / 1024 == w / 1024
    ensures forall b <- FLAGS :: Flag(Clear(w, PTE_W), b) == (b != PTE_W && Flag(w, b))
  {
    hide Flag;
    if Flag(w, PTE_W) {
      LowerW(w);
      FlipW(w - 4, w);
    }
  }

  lemma LowerW(w: nat)
    requires Flag(w, 4)
    ensures w >= 4 && (w - 4) / 4 % 2 == 0 && !Flag(w - 4, 4)
  {
    assert (w - 4) / 4 == w / 4 - 1;
  }

  lemma SetCow(w: nat)
    ensures Set(w, PTE_COW) / 1024 == w / 1024
    ensures forall b <- FLAGS :: Flag(Set(w, PTE_COW), b) == (b == PTE_COW || Flag(w, b))
  {
    hide Flag;
    if !Flag(w, PTE_COW) {
      RaiseCow(w);
      FlipCow(w, w + 32);
    }
  }

  lemma RaiseCow(w: nat)
    requires !Flag(w, 32)
    ensures w / 32 % 2 == 0 && Flag(w + 32, 32)
  {
    assert (w + 32) / 32 == w / 32 + 1;
  }

  lemma ClearCow(w: nat)
    ensures Clear(w, PTE_COW) / 1024 == w / 1024
    ensures forall b <- FLAGS :: Flag(Clear(w, PTE_COW), b) == (b != PTE_COW && Flag(w, b))
  {
    hide Flag;
    if Flag(w, PTE_COW) {
      LowerCow(w);
      FlipCow(w - 32, w);
    }
  }

  lemma LowerCow(w: nat)
    requires Flag(w, 32)
    ensures w >= 32 && (w - 32) / 32 % 2 == 0 && !Flag(w - 32, 32)
  {
    assert (w - 32) / 32 == w / 32 - 1;
  }

  /** uvmcopy: (*pte & ~PTE_W) | PTE_COW, for any word: where it points and its other bits stay. */
  lemma SharedWord(w: nat)
    ensures var r := Set(Clear(w, PTE_W), PTE_COW);
      && r / 1024 == w / 1024
      && forall b <- FLAGS :: Flag(r, b) == (b == PTE_COW || (b != PTE_W && Flag(w, b)))
  {
    hide Flag, Set, Clear;
    ClearW(w);
    SetCow(Clear(w, PTE_W));
  }

  /** cow_page_fault: PA2PTE(new_pa) | ((PTE_FLAGS(*pte) | PTE_W) & ~PTE_COW), for any word and any frame. */
  lemma PrivateWord(w: nat, f: Frame)
    requires f < FRAMES
    ensures var flags := Clear(Set(w % 1024, PTE_W), PTE_COW);
      && flags < 1024 && FrameOf(Entry(f, flags)) == f
      && forall b <- FLAGS :: Flag(Entry(f, flags), b) == (b == PTE_W || (b != PTE_COW && Flag(w, b)))
  {
    hide Flag, Set, Clear, Entry;
    var flags := Clear(Set(w % 1024, PTE_W), PTE_COW);
    SetW(w % 1024);
    ClearCow(Set(w % 1024, PTE_W));
    EntryParts(f, flags);
    EntryIs(f, flags);
    WordParts(w);
    AnyFlag(f, flags);
    AnyFlag(w / 1024, w % 1024);
  }

  lemma EntryIs(f: Frame, flags: nat)
    requires f < FRAMES && flags < 1024
    ensures Entry(f, flags) == f * 1024 + flags
  {
  }

  lemma WordParts(w: nat)
    ensures w == w / 1024 * 1024 + w % 1024
  {
  }

  /** What the words mean: the entry shared, and the entry made private in frame f. */
  lemma SharedEntry(base: Frame, w: Word)
    requires FrameOf(w) >= base
    ensures var r := Set(Clear(w, PTE_W), PTE_COW);
      r / 1024 == w / 1024 && FrameOf(r) >= base && Decode(base, r) == Decode(base, w).(w := false, cow := true)
  {
    hide Flag, Set, Clear;
    SharedWord(w);
  }

  lemma PrivateEntry(base: Frame, w: Word, f: Frame)
    requires FrameOf(w) >= base && base + f < FRAMES
    ensures Clear(Set(w % 1024, PTE_W), PTE_COW) < 1024
    ensures var r := Entry(base + f, Clear(Set(w % 1024, PTE_W), PTE_COW));
      FrameOf(r) >= base && Decode(base, r) == Decode(base, w).(frame := f, w := true, cow := false)
  {
    hide Flag, Set, Clear, Entry, FrameOf;
    PrivateWord(w, base + f);
  }

  /** The leaf map of a tree: the entry of each page that has one. */
  function Leaf(base: Frame, mem: Memory, t: Tree, vpn: nat): Option<PageRefs.Pte> {
    var w := EntryAt(mem, t, vpn);
    if IsValid(w) && FrameOf(w) >= base then Some(Decode(base, w)) else None
  }

  /** Writing an encoded entry into a word adds just that entry to the leaf map; writing 0 removes it. */
  lemma OneLeaf(base: Frame, mem: Memory, t: Tree, mem': Memory, t': Tree, vpn: nat, p: PageRefs.Pte, v: nat)
    requires base + p.frame < FRAMES
    ensures OneEntry(mem, t, mem', t', vpn, Encode(base, p)) ==>
              Leaf(base, mem', t', v) == if v == vpn then Some(p) else Leaf(base, mem, t, v)
    ensures OneEntry(mem, t, mem', t', vpn, 0) ==>
              Leaf(base, mem', t', v) == if v == vpn then None else Leaf(base, mem, t, v)
    ensures SameEntries(mem, t, mem', t') ==> Leaf(base, mem', t', v) == Leaf(base, mem, t, v)
  {
    hide EntryAt, Decode, FrameOf, Encode;
    RoundTrip(base, p);
  }
}
