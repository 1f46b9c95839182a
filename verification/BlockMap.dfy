/** Block ownership in the file system (kernel/fs.c): the free map, and the blocks that inodes
    reach directly, through their indirect pointer, and through their indirect block. */
module BlockMap {
  import opened Basics
  import opened Bits
  import opened Blocks

  const NDIRECT := 12
  const NINDIRECT := 256
  const MAXFILE := NDIRECT + NINDIRECT
  /** The places an inode keeps a block number in: the direct ones, the indirect pointer at
      NDIRECT, and the entries of the indirect block after it. */
  const SLOTS := MAXFILE + 1
  const IPB := 16

  datatype Inode = Inode(size: nat, addrs: seq<nat>)

  /** What the superblock says, and the first block after the metadata. */
  datatype Super = Super(size: nat, inodestart: nat, bmapstart: nat, datastart: nat) {
    ghost predicate Valid() {
      && 0 < inodestart && 0 < bmapstart && bmapstart + size / BPB < datastart <= size < 0x1_0000_0000
    }

    function Bblock(b: nat): nat { b / BPB + bmapstart }
    function Iblock(inum: nat): nat { inum / IPB + inodestart }
  }

  datatype Fs = Fs(g: Super, blocks: seq<Block>, inodes: map<nat, Inode>) {
    ghost predicate Shaped() {
      && g.Valid() && |blocks| == g.size
      && forall i :: i in inodes ==> |inodes[i].addrs| == NDIRECT + 1
    }

    /** Is block `b` marked in the free map? */
    predicate Used(b: nat)
      requires g.Valid() && |blocks| == g.size && b < g.size
    {
      GetBit(blocks[g.Bblock(b)], b % BPB)
    }

    /** The block number in place `k` of inode `i`, or zero. */
    function Slot(i: nat, k: nat): nat
      requires Shaped() && i in inodes && k < SLOTS
    {
      var a := inodes[i].addrs;
      if k <= NDIRECT then a[k]
      else if a[NDIRECT] == 0 || a[NDIRECT] >= g.size then 0
      else GetWord(blocks[a[NDIRECT]], k - NDIRECT - 1)
    }

    ghost predicate Owned(b: nat)
      requires Shaped()
    {
      exists i, k :: i in inodes && 0 <= k < SLOTS && Slot(i, k) == b
    }

    /** A block in use for data: marked, and outside the metadata. */
    ghost predicate InUse(b: nat)
      requires Shaped()
    {
      g.datastart <= b < g.size && Used(b)
    }

    /** The metadata is marked, every block an inode reaches is marked and outside it, and no
        block is reached twice. */
    ghost predicate Inv() {
      && Shaped()
      && (forall b :: 0 <= b < g.datastart ==> Used(b))
      && (forall i, k :: i in inodes && 0 <= k < SLOTS && Slot(i, k) != 0 ==> InUse(Slot(i, k)))
      && (forall i, j, k, l :: i in inodes && j in inodes && 0 <= k < SLOTS && 0 <= l < SLOTS ==>
            Slot(i, k) != 0 && Slot(i, k) == Slot(j, l) ==> i == j && k == l)
    }
  }

  /** No block is free. */
  ghost predicate Full(s: Fs)
    requires s.Shaped()
  {
    forall c :: 0 <= c < s.g.size ==> s.Used(c)
  }

  /** The same inodes see the same block numbers. */
  ghost predicate SameSlots(s: Fs, r: Fs) {
    && s.Shaped() && r.Shaped() && s.g == r.g && s.inodes.Keys == r.inodes.Keys
    && forall i, k :: i in s.inodes && 0 <= k < SLOTS ==> r.Slot(i, k) == s.Slot(i, k)
  }

  function Mark(s: Fs, b: nat, v: bool): (r: Fs)
    requires s.Shaped() && b < s.g.size
    ensures r.Shaped() && r.g == s.g && r.inodes == s.inodes
    ensures forall c :: 0 <= c < s.g.size ==> r.Used(c) == if c == b then v else s.Used(c)
    ensures forall c :: 0 <= c < s.g.size && c != s.g.Bblock(b) ==> r.blocks[c] == s.blocks[c]
  {
    s.(blocks := s.blocks[s.g.Bblock(b) := PutBit(s.blocks[s.g.Bblock(b)], b % BPB, v)])
  }

  /** Blocks outside the metadata that no inode reaches as indirect can change freely. */
  lemma SlotsUnrelated(s: Fs, r: Fs)
    requires s.Inv() && r.Shaped() && r.g == s.g && r.inodes == s.inodes
    requires forall i :: i in s.inodes && s.inodes[i].addrs[NDIRECT] != 0
               ==> s.inodes[i].addrs[NDIRECT] < s.g.size
                   && r.blocks[s.inodes[i].addrs[NDIRECT]] == s.blocks[s.inodes[i].addrs[NDIRECT]]
    ensures SameSlots(s, r)
  {
  }

  lemma IndirectInUse(s: Fs, i: nat)
    requires s.Inv() && i in s.inodes && s.inodes[i].addrs[NDIRECT] != 0
    ensures s.InUse(s.inodes[i].addrs[NDIRECT])
  {
    assert s.Slot(i, NDIRECT) == s.inodes[i].addrs[NDIRECT];
  }

  /** What balloc does with a free block: mark it and zero it. */
  function Alloc(s: Fs, b: nat): (r: Fs)
    requires s.Shaped() && b < s.g.size
  {
    var m := Mark(s, b, true);
    m.(blocks := m.blocks[b := ZeroBlock()])
  }

  /** An unmarked block belongs to no inode, and allocating it changes no inode. */
  lemma AllocKeeps(s: Fs, b: nat)
    requires s.Inv() && b < s.g.size && !s.Used(b)
    ensures var r := Alloc(s, b);
            && r.Inv() && r.inodes == s.inodes && r.g == s.g && SameSlots(s, r) && r.InUse(b) && !r.Owned(b) && b != 0
            && (forall c :: 0 <= c < s.g.size ==> r.Used(c) == (c == b || s.Used(c)))
            && r.blocks[b] == ZeroBlock()
            && (forall c :: s.g.datastart <= c < s.g.size && c != b ==> r.blocks[c] == s.blocks[c])
  {
    var m, r := Mark(s, b, true), Alloc(s, b);
    assert s.g.datastart <= b;
    assert s.g.Bblock(b) < s.g.datastart;
    forall c | 0 <= c < s.g.size ensures r.Used(c) == (c == b || s.Used(c)) {
      assert s.g.Bblock(c) < s.g.datastart;
      assert r.blocks[s.g.Bblock(c)] == m.blocks[s.g.Bblock(c)];
    }
    forall i | i in s.inodes && s.inodes[i].addrs[NDIRECT] != 0
      ensures s.inodes[i].addrs[NDIRECT] < s.g.size
      ensures r.blocks[s.inodes[i].addrs[NDIRECT]] == s.blocks[s.inodes[i].addrs[NDIRECT]]
    {
      IndirectInUse(s, i);
    }
    SlotsUnrelated(s, r);
  }

  /** One place of one inode now holds `b`; every other place is as it was. */
  ghost predicate SlotSet(s: Fs, r: Fs, i: nat, k: nat, b: nat) {
    && s.Shaped() && r.Shaped() && r.g == s.g && r.inodes.Keys == s.inodes.Keys && i in s.inodes && k < SLOTS
    && r.Slot(i, k) == b
    && forall j, l :: j in s.inodes && 0 <= l < SLOTS && (j != i || l != k) ==> r.Slot(j, l) == s.Slot(j, l)
  }

  lemma SlotSetKeeps(s: Fs, r: Fs, i: nat, k: nat, b: nat)
    requires s.Inv() && SlotSet(s, r, i, k, b) && s.InUse(b) && !s.Owned(b)
    requires forall c :: 0 <= c < s.g.size ==> r.Used(c) == s.Used(c)
    ensures r.Inv()
  {
  }

  function SetAddr(s: Fs, i: nat, k: nat, b: nat): (r: Fs)
    requires s.Shaped() && i in s.inodes && k <= NDIRECT
    ensures r.Shaped()
  {
    s.(inodes := s.inodes[i := s.inodes[i].(addrs := s.inodes[i].addrs[k := b])])
  }

  lemma SetAddrKeeps(s: Fs, i: nat, k: nat, b: nat)
    requires s.Inv() && i in s.inodes && k <= NDIRECT && s.Slot(i, k) == 0
    requires s.InUse(b) && !s.Owned(b) && (k == NDIRECT ==> s.blocks[b] == ZeroBlock())
    ensures SetAddr(s, i, k, b).Inv() && SlotSet(s, SetAddr(s, i, k, b), i, k, b)
    ensures forall c :: 0 <= c < s.g.size ==> SetAddr(s, i, k, b).Used(c) == s.Used(c)
  {
    var r := SetAddr(s, i, k, b);
    if k == NDIRECT {
      forall l | NDIRECT < l < SLOTS ensures r.Slot(i, l) == 0 {
        assert GetWord(ZeroBlock(), l - NDIRECT - 1) == 0;
      }
    }
    assert SlotSet(s, r, i, k, b);
    SlotSetKeeps(s, r, i, k, b);
  }

  function SetEntry(s: Fs, i: nat, j: nat, b: nat): (r: Fs)
    requires s.Shaped() && i in s.inodes && 0 < s.inodes[i].addrs[NDIRECT] < s.g.size && j < NINDIRECT && b < s.g.size
    ensures r.Shaped()
  {
    var a := s.inodes[i].addrs[NDIRECT];
    s.(blocks := s.blocks[a := PutWord(s.blocks[a], j, b)])
  }

  lemma SetEntryKeeps(s: Fs, i: nat, j: nat, b: nat)
    requires s.Inv() && i in s.inodes && s.inodes[i].addrs[NDIRECT] != 0 && j < NINDIRECT
    requires s.Slot(i, NDIRECT + 1 + j) == 0 && s.InUse(b) && !s.Owned(b)
    ensures s.InUse(s.inodes[i].addrs[NDIRECT])
    ensures var r := SetEntry(s, i, j, b);
            && r.Inv() && SlotSet(s, r, i, NDIRECT + 1 + j, b)
            && forall c :: 0 <= c < s.g.size ==> r.Used(c) == s.Used(c)
  {
    IndirectInUse(s, i);
    var a := s.inodes[i].addrs[NDIRECT];
    var r := SetEntry(s, i, j, b);
    forall c | 0 <= c < s.g.size ensures r.Used(c) == s.Used(c) {
      assert s.g.Bblock(c) < s.g.datastart;
    }
    forall n, l | n in s.inodes && 0 <= l < SLOTS && (n != i || l != NDIRECT + 1 + j)
      ensures r.Slot(n, l) == s.Slot(n, l)
    {
      assert s.Slot(i, NDIRECT) == a;
      if n != i { assert s.Slot(n, NDIRECT) == 0 || s.Slot(n, NDIRECT) != a; }
    }
    SlotSetKeeps(s, r, i, NDIRECT + 1 + j, b);
  }

  // Bytes

  /** The place of the `bn`th block of a file. */
  function Pos(bn: nat): nat {
    if bn < NDIRECT then bn else bn + 1
  }

  /** The block of a file that byte `o` is in, its place there, and the blocks `o` bytes take. */
  function Bn(o: nat): nat { o / BSIZE }
  function At(o: nat): (k: nat) ensures k < BSIZE { o % BSIZE }
  function BnUp(o: nat): nat { (o + BSIZE - 1) / BSIZE }

  /** Byte `o` of inode `i`; an unmapped block reads as zeros. */
  function ByteAt(s: Fs, i: nat, o: nat): (x: Byte)
    requires s.Shaped() && i in s.inodes && o < MAXFILE * BSIZE
  {
    var a := s.Slot(i, Pos(o / BSIZE));
    if a == 0 || a >= s.g.size then 0 else s.blocks[a][o % BSIZE]
  }

  /** Where that byte is on the disk, by way of the inode's addresses and the words of the indirect
      block. */
  lemma BytePlace(s: Fs, i: nat, o: nat)
    requires s.Inv() && i in s.inodes && o < MAXFILE * BSIZE
    ensures var bn, a := o / 1024, s.inodes[i].addrs;
            && bn < 268
            && (bn < 12 && a[bn] != 0 ==> a[bn] < s.g.size && ByteAt(s, i, o) == s.blocks[a[bn]][o % 1024])
            && (bn >= 12 && a[12] != 0 ==>
                  && a[12] < s.g.size
                  && var e := GetWord(s.blocks[a[12]], bn - 12);
                     e != 0 ==> e < s.g.size && ByteAt(s, i, o) == s.blocks[e][o % 1024])
  {
    var bn := o / 1024;
    if bn >= 12 && s.inodes[i].addrs[12] != 0 { IndirectInUse(s, i); }
    if s.Slot(i, Pos(bn)) != 0 { assert s.InUse(s.Slot(i, Pos(bn))); }
  }

  /** Where the mark of a block is: a bit of the free map. */
  lemma MarkPlace(s: Fs, b: nat)
    requires s.Shaped() && b < s.g.size
    ensures var m := s.g.bmapstart + b / 8192; m < s.g.size && s.Used(b) == Bit(s.blocks[m][b % 8192 / 8], b % 8)
  {
    assert b % 8192 % 8 == b % 8 by { Shifted(8, b % 8192, 1024 * (b / 8192)); }
  }

  ghost predicate SameBytes(s: Fs, r: Fs) {
    && s.Shaped() && r.Shaped() && r.inodes.Keys == s.inodes.Keys
    && forall i, o :: i in s.inodes && 0 <= o < MAXFILE * BSIZE ==> ByteAt(r, i, o) == ByteAt(s, i, o)
  }

  /** Data blocks keep their contents. */
  ghost predicate SameData(s: Fs, r: Fs) {
    && s.Shaped() && r.Shaped() && r.g == s.g && r.inodes.Keys == s.inodes.Keys
    && forall i, k :: i in s.inodes && 0 <= k < SLOTS && k != NDIRECT && s.Slot(i, k) != 0 ==>
         s.Slot(i, k) < s.g.size && r.blocks[s.Slot(i, k)] == s.blocks[s.Slot(i, k)]
  }

  lemma SameSlotsSameBytes(s: Fs, r: Fs)
    requires SameSlots(s, r) && SameData(s, r)
    ensures SameBytes(s, r)
  {
    forall i, o | i in s.inodes && 0 <= o < MAXFILE * BSIZE ensures ByteAt(r, i, o) == ByteAt(s, i, o) {
      assert r.Slot(i, Pos(o / BSIZE)) == s.Slot(i, Pos(o / BSIZE));
    }
  }

  /** Mapping a zeroed block where there was none does not show. */
  lemma NewBlockSameBytes(s: Fs, r: Fs, i: nat, k: nat, b: nat)
    requires SlotSet(s, r, i, k, b) && s.Slot(i, k) == 0 && SameData(s, r)
    requires b < s.g.size && r.blocks[b] == ZeroBlock()
    ensures SameBytes(s, r)
  {
    forall j, o | j in s.inodes && 0 <= o < MAXFILE * BSIZE ensures ByteAt(r, j, o) == ByteAt(s, j, o) {
      var l := Pos(o / BSIZE);
      if j != i || l != k { assert r.Slot(j, l) == s.Slot(j, l); }
    }
  }

  lemma AllocSameBytes(s: Fs, b: nat)
    requires s.Inv() && b < s.g.size && !s.Used(b)
    ensures SameBytes(s, Alloc(s, b))
  {
    hide Mark, Alloc;
    AllocKeeps(s, b);
    var r := Alloc(s, b);
    forall i, k | i in s.inodes && 0 <= k < SLOTS && k != NDIRECT && s.Slot(i, k) != 0
      ensures r.blocks[s.Slot(i, k)] == s.blocks[s.Slot(i, k)]
    {
      assert s.InUse(s.Slot(i, k));
    }
    SameSlotsSameBytes(s, r);
  }

  lemma SetAddrSameBytes(s: Fs, i: nat, k: nat, b: nat)
    requires s.Inv() && i in s.inodes && k <= NDIRECT && s.Slot(i, k) == 0
    requires s.InUse(b) && !s.Owned(b) && s.blocks[b] == ZeroBlock()
    ensures SameBytes(s, SetAddr(s, i, k, b))
  {
    SetAddrKeeps(s, i, k, b);
    NewBlockSameBytes(s, SetAddr(s, i, k, b), i, k, b);
  }

  lemma SetEntrySameBytes(s: Fs, i: nat, j: nat, b: nat)
    requires s.Inv() && i in s.inodes && s.inodes[i].addrs[NDIRECT] != 0 && j < NINDIRECT
    requires s.Slot(i, NDIRECT + 1 + j) == 0 && s.InUse(b) && !s.Owned(b) && s.blocks[b] == ZeroBlock()
    ensures s.InUse(s.inodes[i].addrs[NDIRECT])
    ensures SameBytes(s, SetEntry(s, i, j, b))
  {
    SetEntryKeeps(s, i, j, b);
    var r := SetEntry(s, i, j, b);
    assert s.Slot(i, NDIRECT) == s.inodes[i].addrs[NDIRECT];
    forall n, k | n in s.inodes && 0 <= k < SLOTS && k != NDIRECT && s.Slot(n, k) != 0
      ensures s.Slot(n, k) < s.g.size && r.blocks[s.Slot(n, k)] == s.blocks[s.Slot(n, k)]
    {
      assert s.InUse(s.Slot(n, k));
      assert s.Slot(n, k) != s.Slot(i, NDIRECT);
    }
    assert b != s.Slot(i, NDIRECT);
    NewBlockSameBytes(s, r, i, NDIRECT + 1 + j, b);
  }

  function PutBytes(b: Block, at: nat, src: seq<Byte>): (r: Block)
    requires at + |src| <= BSIZE
    ensures forall k :: 0 <= k < BSIZE ==> r[k] == if at <= k < at + |src| then src[k - at] else b[k]
  {
    b[..at] + src + b[at + |src|..]
  }

  function WriteBlock(s: Fs, a: nat, at: nat, src: seq<Byte>): (r: Fs)
    requires s.Shaped() && a < s.g.size && at + |src| <= BSIZE
    ensures r.Shaped()
  {
    s.(blocks := s.blocks[a := PutBytes(s.blocks[a], at, src)])
  }

  /** From offset `off` on, inode `i` holds `w`; every other byte of every file is as it was. */
  ghost predicate Spliced(s: Fs, r: Fs, i: nat, off: nat, w: seq<Byte>) {
    && s.Shaped() && r.Shaped() && r.inodes.Keys == s.inodes.Keys
    && forall j, o :: j in s.inodes && 0 <= o < MAXFILE * BSIZE ==>
         ByteAt(r, j, o) == if j == i && off <= o < off + |w| then w[o - off] else ByteAt(s, j, o)
  }

  /** Writing into one data block of a file changes those bytes of that file only. */
  lemma WriteBlockBytes(s: Fs, i: nat, bn: nat, at: nat, src: seq<Byte>)
    requires s.Inv() && i in s.inodes && bn < MAXFILE && s.Slot(i, Pos(bn)) != 0 && at + |src| <= BSIZE
    ensures s.InUse(s.Slot(i, Pos(bn)))
    ensures var r := WriteBlock(s, s.Slot(i, Pos(bn)), at, src);
            && r.Inv() && r.inodes == s.inodes && SameSlots(s, r)
            && Spliced(s, r, i, bn * BSIZE + at, src)
            && forall c :: 0 <= c < s.g.size ==> r.Used(c) == s.Used(c)
  {
    var a := s.Slot(i, Pos(bn));
    assert s.InUse(a);
    var r := WriteBlock(s, a, at, src);
    forall c | 0 <= c < s.g.size ensures r.Used(c) == s.Used(c) {
      assert s.g.Bblock(c) < s.g.datastart;
    }
    forall j | j in s.inodes && s.inodes[j].addrs[NDIRECT] != 0
      ensures s.inodes[j].addrs[NDIRECT] < s.g.size
      ensures r.blocks[s.inodes[j].addrs[NDIRECT]] == s.blocks[s.inodes[j].addrs[NDIRECT]]
    {
      IndirectInUse(s, j);
      assert s.Slot(j, NDIRECT) != s.Slot(i, Pos(bn));
    }
    SlotsUnrelated(s, r);
    forall j, o | j in s.inodes && 0 <= o < MAXFILE * BSIZE
      ensures ByteAt(r, j, o) ==
              if j == i && bn * BSIZE + at <= o < bn * BSIZE + at + |src| then src[o - (bn * BSIZE + at)]
              else ByteAt(s, j, o)
    {
      var l := Pos(o / BSIZE);
      assert r.Slot(j, l) == s.Slot(j, l);
      assert o == o / BSIZE * BSIZE + o % BSIZE;
      if s.Slot(j, l) == a { assert j == i && l == Pos(bn) && o / BSIZE == bn; }
      if s.Slot(j, l) != 0 { assert s.InUse(s.Slot(j, l)); }
    }
  }
}
