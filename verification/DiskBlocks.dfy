/**
Disk blocks as bytes: the block bitmap of kernel/fs.c, one bit a block, and the uint entries of an
indirect block, both read and written through a block's bytes.
*/
module DiskBlocks {
  import opened Bits

  const BSIZE: nat := 1024
  const BPB: nat := BSIZE * 8  // bits in a bitmap block
  const UINT: nat := 0x1_0000_0000

  type Byte = bv8

  type Block = b: seq<Byte> | |b| == BSIZE witness seq(BSIZE, _ => 0)

  function Zero(): Block {
    seq(BSIZE, _ => 0)
  }

  // ---- bits ----

  /** 1 << k */
  function Mask(k: nat): Byte
    requires k < 8
  {
    if k == 0 then 1 else if k == 1 then 2 else if k == 2 then 4 else if k == 3 then 8
    else if k == 4 then 16 else if k == 5 then 32 else if k == 6 then 64 else 128
  }

  lemma MaskIs(k: nat)
    requires k < 8
    ensures Mask(k) == (1 as Byte) << k
  {
  }

  predicate BitOf(x: Byte, k: nat)
    requires k < 8
  {
    x & Mask(k) != 0
  }

  /** Setting or clearing a bit changes that bit only. */
  lemma BitsApart(x: Byte, k: nat, j: nat)
    requires k < 8 && j < 8
    ensures BitOf(x | Mask(k), j) == (j == k || BitOf(x, j))
    ensures BitOf(x & !Mask(k), j) == (j != k && BitOf(x, j))
  {
  }

  predicate BlockBit(d: Block, bi: nat)
    requires bi < BPB
  {
    BitOf(d[bi / 8], bi % 8)
  }

  function SetBit(d: Block, bi: nat): Block
    requires bi < BPB
  {
    d[bi / 8 := d[bi / 8] | Mask(bi % 8)]
  }

  function ClearBit(d: Block, bi: nat): Block
    requires bi < BPB
  {
    d[bi / 8 := d[bi / 8] & !Mask(bi % 8)]
  }

  lemma BlockBitsApart(d: Block, bi: nat, c: nat)
    requires bi < BPB && c < BPB
    ensures BlockBit(SetBit(d, bi), c) == (c == bi || BlockBit(d, c))
    ensures BlockBit(ClearBit(d, bi), c) == (c != bi && BlockBit(d, c))
  {
    hide Mask, BitOf;
    BitsApart(d[bi / 8], bi % 8, c % 8);
  }

  // ---- words ----

  /** The byte whose value is n. */
  function ByteOf(n: nat): Byte
    requires n < 0x100
  {
    var n1 := n / 2; var n2 := n1 / 2; var n3 := n2 / 2; var n4 := n3 / 2; var n5 := n4 / 2; var n6 := n5 / 2;
    var n7 := n6 / 2;
    FromBits(n % 2 == 1, n1 % 2 == 1, n2 % 2 == 1, n3 % 2 == 1, n4 % 2 == 1, n5 % 2 == 1, n6 % 2 == 1, n7 == 1)
  }

  function FromBits(b0: bool, b1: bool, b2: bool, b3: bool, b4: bool, b5: bool, b6: bool, b7: bool): Byte {
    (if b0 then 1 else 0) | (if b1 then 2 else 0) | (if b2 then 4 else 0) | (if b3 then 8 else 0)
    | (if b4 then 16 else 0) | (if b5 then 32 else 0) | (if b6 then 64 else 0) | (if b7 then 128 else 0)
  }

  /** The value of a byte: the sum of its bits. */
  function ToNat(x: Byte): (n: nat)
    ensures n < 0x100
  {
    Weight(BitOf(x, 0), 1) + Weight(BitOf(x, 1), 2) + Weight(BitOf(x, 2), 4) + Weight(BitOf(x, 3), 8)
    + Weight(BitOf(x, 4), 16) + Weight(BitOf(x, 5), 32) + Weight(BitOf(x, 6), 64) + Weight(BitOf(x, 7), 128)
  }

  lemma BitsBack(b0: bool, b1: bool, b2: bool, b3: bool, b4: bool, b5: bool, b6: bool, b7: bool)
    ensures var x := FromBits(b0, b1, b2, b3, b4, b5, b6, b7);
      && BitOf(x, 0) == b0 && BitOf(x, 1) == b1 && BitOf(x, 2) == b2 && BitOf(x, 3) == b3
      && BitOf(x, 4) == b4 && BitOf(x, 5) == b5 && BitOf(x, 6) == b6 && BitOf(x, 7) == b7
  {
  }

  lemma SumOfBits(n: nat)
    requires n < 0x100
    ensures var n1 := n / 2; var n2 := n1 / 2; var n3 := n2 / 2; var n4 := n3 / 2; var n5 := n4 / 2; var n6 := n5 / 2;
            var n7 := n6 / 2;
      Weight(n % 2 == 1, 1) + Weight(n1 % 2 == 1, 2) + Weight(n2 % 2 == 1, 4) + Weight(n3 % 2 == 1, 8)
      + Weight(n4 % 2 == 1, 16) + Weight(n5 % 2 == 1, 32) + Weight(n6 % 2 == 1, 64) + Weight(n7 == 1, 128) == n
  {
    var n1 := n / 2; var n2 := n1 / 2; var n3 := n2 / 2; var n4 := n3 / 2; var n5 := n4 / 2; var n6 := n5 / 2;
    var n7 := n6 / 2;
    assert Weight(n7 == 1, 128) == 128 * n7;
    assert Weight(n6 % 2 == 1, 64) + 128 * n7 == 64 * n6;
    assert Weight(n5 % 2 == 1, 32) + 64 * n6 == 32 * n5;
    assert Weight(n4 % 2 == 1, 16) + 32 * n5 == 16 * n4;
    assert Weight(n3 % 2 == 1, 8) + 16 * n4 == 8 * n3;
    assert Weight(n2 % 2 == 1, 4) + 8 * n3 == 4 * n2;
    assert Weight(n1 % 2 == 1, 2) + 4 * n2 == 2 * n1;
    assert Weight(n % 2 == 1, 1) + 2 * n1 == n;
  }

  lemma BytesRound(n: nat)
    requires n < 0x100
    ensures ToNat(ByteOf(n)) == n
  {
    hide FromBits, BitOf, Weight;
    var n1 := n / 2; var n2 := n1 / 2; var n3 := n2 / 2; var n4 := n3 / 2; var n5 := n4 / 2; var n6 := n5 / 2;
    var n7 := n6 / 2;
    BitsBack(n % 2 == 1, n1 % 2 == 1, n2 % 2 == 1, n3 % 2 == 1, n4 % 2 == 1, n5 % 2 == 1, n6 % 2 == 1, n7 == 1);
    SumOfBits(n);
  }

  /** ((uint*)d)[j], little-endian */
  function Word(d: Block, j: nat): (w: nat)
    requires j < BSIZE / 4
    ensures w < UINT
  {
    ToNat(d[4 * j]) + 0x100 * ToNat(d[4 * j + 1]) + 0x1_0000 * ToNat(d[4 * j + 2]) + 0x100_0000 * ToNat(d[4 * j + 3])
  }

  function PutWord(d: Block, j: nat, w: nat): Block
    requires j < BSIZE / 4 && w < UINT
  {
    d[4 * j := ByteOf(w % 0x100)][4 * j + 1 := ByteOf(w / 0x100 % 0x100)]
     [4 * j + 2 := ByteOf(w / 0x1_0000 % 0x100)][4 * j + 3 := ByteOf(w / 0x100_0000)]
  }

  /** The bytes PutWord writes, and those it leaves. */
  lemma PutBytes(d: Block, j: nat, w: nat)
    requires j < BSIZE / 4 && w < UINT
    ensures var r := PutWord(d, j, w);
      && r[4 * j] == ByteOf(w % 0x100) && r[4 * j + 1] == ByteOf(w / 0x100 % 0x100)
      && r[4 * j + 2] == ByteOf(w / 0x1_0000 % 0x100) && r[4 * j + 3] == ByteOf(w / 0x100_0000)
    ensures forall i :: 0 <= i < BSIZE && i / 4 != j ==> PutWord(d, j, w)[i] == d[i]
  {
    hide ByteOf, ToNat;
  }

  lemma Recombine(w: nat)
    requires w < UINT
    ensures w % 0x100 + 0x100 * (w / 0x100 % 0x100) + 0x1_0000 * (w / 0x1_0000 % 0x100) +
            0x100_0000 * (w / 0x100_0000) == w
  {
  }

  lemma WordsApart(d: Block, j: nat, w: nat, k: nat)
    requires j < BSIZE / 4 && k < BSIZE / 4 && w < UINT
    ensures Word(PutWord(d, j, w), k) == if k == j then w else Word(d, k)
  {
    hide ByteOf, ToNat, PutWord;
    PutBytes(d, j, w);
    if k == j {
      BytesRound(w % 0x100);
      BytesRound(w / 0x100 % 0x100);
      BytesRound(w / 0x1_0000 % 0x100);
      BytesRound(w / 0x100_0000);
      Recombine(w);
    }
  }

  /** The sum of the bits of a byte is its value. */
  lemma ToNatIs(x: Byte)
    ensures ToNat(x) == x as nat
  {
  }

  /** The number that the four bytes from at on are, the lowest first. */
  function Little(d: Block, at: nat): nat
    requires at + 4 <= BSIZE
  {
    d[at] as nat + 0x100 * (d[at + 1] as nat) + 0x1_0000 * (d[at + 2] as nat) + 0x100_0000 * (d[at + 3] as nat)
  }

  /** An entry is that number. */
  lemma WordIs(d: Block, j: nat)
    requires j < BSIZE / 4
    ensures Word(d, j) == Little(d, 4 * j)
  {
    hide ToNat;
    ToNatIs(d[4 * j]);
    ToNatIs(d[4 * j + 1]);
    ToNatIs(d[4 * j + 2]);
    ToNatIs(d[4 * j + 3]);
  }

  /** The bytes PutWord writes are those of w. */
  lemma PutWordIs(d: Block, j: nat, w: nat)
    requires j < BSIZE / 4 && w < UINT
    ensures var r := PutWord(d, j, w);
      && r[4 * j] as nat == w % 0x100 && r[4 * j + 1] as nat == w / 0x100 % 0x100
      && r[4 * j + 2] as nat == w / 0x1_0000 % 0x100 && r[4 * j + 3] as nat == w / 0x100_0000
  {
    hide ByteOf, ToNat, PutWord;
    PutBytes(d, j, w);
    ByteOfIs(w % 0x100);
    ByteOfIs(w / 0x100 % 0x100);
    ByteOfIs(w / 0x1_0000 % 0x100);
    ByteOfIs(w / 0x100_0000);
  }

  lemma ByteOfIs(n: nat)
    requires n < 0x100
    ensures ByteOf(n) as nat == n
  {
    hide ByteOf, ToNat;
    BytesRound(n);
    ToNatIs(ByteOf(n));
  }

  lemma ZeroWords(j: nat)
    requires j < BSIZE / 4
    ensures Word(Zero(), j) == 0
  {
  }
}
