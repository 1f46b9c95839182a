/** Disk blocks as raw bytes, with the little-endian 32-bit accesses that the log
    header, the indirect blocks and the inodes make to them (kernel/fs.h). */
module Blocks {
  import opened Bits

  const BSIZE := 1024
  /** 32-bit words in a block. */
  const WORDS := 256

  type Byte = x: int | 0 <= x < 256
  type Word = x: int | 0 <= x < 0x1_0000_0000
  type Block = b: seq<Byte> | |b| == BSIZE witness seq(BSIZE, _ => 0)

  /** A zeroed block. */
  function ZeroBlock(): (b: Block)
    ensures forall i :: 0 <= i < BSIZE ==> b[i] == 0
  {
    seq(BSIZE, _ => 0)
  }

  function GetWord(b: Block, i: nat): (w: Word)
    requires i < WORDS
  {
    b[4 * i] as int + 0x100 * b[4 * i + 1] as int + 0x1_0000 * b[4 * i + 2] as int + 0x100_0000 * b[4 * i + 3] as int
  }

  lemma WordBytes(w: Word)
    ensures w / 0x100_0000 < 0x100
    ensures w == w % 0x100 + 0x100 * (w / 0x100 % 0x100) + 0x1_0000 * (w / 0x1_0000 % 0x100) +
              0x100_0000 * (w / 0x100_0000)
  {
    assert w == w % 0x100 + 0x100 * (w / 0x100);
    assert w / 0x100 == w / 0x100 % 0x100 + 0x100 * (w / 0x1_0000);
    assert w / 0x1_0000 == w / 0x1_0000 % 0x100 + 0x100 * (w / 0x100_0000);
  }

  function PutWord(b: Block, i: nat, w: Word): (r: Block)
    requires i < WORDS
    ensures forall j :: 0 <= j < WORDS ==> GetWord(r, j) == if j == i then w else GetWord(b, j)
  {
    WordBytes(w);
    b[4 * i := w % 0x100]
     [4 * i + 1 := w / 0x100 % 0x100]
     [4 * i + 2 := w / 0x1_0000 % 0x100]
     [4 * i + 3 := w / 0x100_0000]
  }

  /** The four bytes of a word, the least significant first, where the CPU has them. */
  lemma WordPlace(b: Block, i: nat, w: Word)
    requires i < WORDS
    ensures var r := PutWord(b, i, w);
            && r[4 * i] as int + 0x100 * r[4 * i + 1] as int + 0x1_0000 * r[4 * i + 2] as int
               + 0x100_0000 * r[4 * i + 3] as int == w
            && forall k :: 0 <= k < BSIZE && k / 4 != i ==> r[k] == b[k]
  {
    WordBytes(w);
  }

  // Bits, as the free map uses them

  const BPB := 8192

  predicate GetBit(b: Block, i: nat)
    requires i < BPB
  {
    Bit(b[i / 8], i % 8)
  }

  function PutBit(b: Block, i: nat, v: bool): (r: Block)
    requires i < BPB
    ensures forall j :: 0 <= j < BPB ==> GetBit(r, j) == if j == i then v else GetBit(b, j)
  {
    ByteMask();
    var r := b[i / 8 := WithBit(b[i / 8], i % 8, v, 8)];
    assert forall j :: 0 <= j < BPB ==> GetBit(r, j) == if j == i then v else GetBit(b, j) by {
      forall j | 0 <= j < BPB ensures GetBit(r, j) == if j == i then v else GetBit(b, j) {
        WithBitAt(b[i / 8], i % 8, v, 8, j % 8);
      }
    }
    r
  }

  /** The mark of block `i` is bit `i % 8` of byte `i / 8`. */
  lemma BitPlace(b: Block, i: nat, v: bool)
    requires i < BPB
    ensures var r := PutBit(b, i, v);
            && (forall k :: 0 <= k < 8 ==> Bit(r[i / 8], k) == if k == i % 8 then v else Bit(b[i / 8], k))
            && forall j :: 0 <= j < BSIZE && j != i / 8 ==> r[j] == b[j]
  {
    ByteMask();
    forall k | 0 <= k < 8
      ensures Bit(PutBit(b, i, v)[i / 8], k) == if k == i % 8 then v else Bit(b[i / 8], k)
    {
      WithBitAt(b[i / 8], i % 8, v, 8, k);
    }
  }
}
