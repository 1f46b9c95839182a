/** The block and file layers of kernel/fs.c, and filewrite of kernel/file.c: allocation, block
    maps, truncation, reading and writing, and the blocks each operation logs. */
module FileSystem {
  import opened Basics
  import opened Blocks
  import opened BlockMap
  import opened Truncation
  import LogDisk
  import LogSpace

  /** Place `l` of inode `j` is one that mapping block `bn` of inode `i` may fill. */
  ghost predicate MayGain(s: Fs, i: nat, bn: nat, j: nat, l: nat)
    requires s.Shaped() && j in s.inodes && l < SLOTS
  {
    j == i && (l == Pos(bn) || (l == NDIRECT && bn >= NDIRECT)) && s.Slot(j, l) == 0
  }

  /** A later file system in which inode `i` may have gained block `bn` and its indirect block. */
  ghost predicate Extends(s: Fs, r: Fs, i: nat, bn: nat) {
    && s.Shaped() && r.Shaped() && r.g == s.g && r.inodes.Keys == s.inodes.Keys && i in s.inodes
    && SameSizes(s, r) && OthersSame(s, r, i)
    && (forall j, l :: j in s.inodes && 0 <= l < SLOTS && !MayGain(s, i, bn, j, l) ==> r.Slot(j, l) == s.Slot(j, l))
  }

  function Larger(a: nat, b: nat): nat { if a > b then a else b }

  /** The blocks that are marked in one and not in the other, and the blocks of the free map that say so. */
  ghost function Changed(s: Fs, r: Fs): (cs: set<nat>)
    requires s.Shaped() && r.Shaped() && r.g == s.g
  {
    set c | 0 <= c < s.g.size && r.Used(c) != s.Used(c)
  }

  ghost function MapBlocks(g: Super, cs: set<nat>): (r: set<nat>) {
    set c | c in cs :: g.Bblock(c)
  }

  /** Besides the free map's blocks for what has been marked or freed meanwhile, only blocks in `extra`
      have been logged. */
  ghost predicate Logs(s: Fs, r: Fs, before: set<nat>, after: set<nat>, extra: set<nat>) {
    && s.Shaped() && r.Shaped() && r.g == s.g && before <= after
    && forall x :: x in after ==> x in before || x in MapBlocks(s.g, Changed(s, r)) || (x in extra && x != 0)
  }

  /** Nothing has been freed and only blocks in `bs` have been marked. */
  ghost predicate Marks(s: Fs, r: Fs, bs: set<nat>) {
    && s.Shaped() && r.Shaped() && r.g == s.g
    && forall c :: 0 <= c < s.g.size ==> (s.Used(c) ==> r.Used(c)) && (r.Used(c) ==> s.Used(c) || (c in bs && c != 0))
  }

  ghost predicate Allocs(s: Fs, r: Fs, before: set<nat>, after: set<nat>, bs: set<nat>) {
    Marks(s, r, bs) && Logs(s, r, before, after, bs)
  }

  /** Every block whose contents have changed has been logged, those in `torn` excepted. */
  ghost predicate Covered(s: Fs, r: Fs, logged: set<nat>, torn: set<nat>) {
    && |r.blocks| == |s.blocks|
    && forall b :: 0 <= b < |s.blocks| && r.blocks[b] != s.blocks[b] ==> b in logged || b in torn
  }

  /** Nothing has been marked, and only the free map changed and logged. */
  ghost predicate Frees(s: Fs, r: Fs, before: set<nat>, after: set<nat>) {
    && Logs(s, r, before, after, {}) && Covered(s, r, after, {})
    && forall c :: 0 <= c < s.g.size && r.Used(c) ==> s.Used(c)
  }

  /** The marked blocks are those that were marked and those that inode `i` has. */
  ghost predicate MarkedFor(s: Fs, r: Fs, i: nat) {
    && s.Shaped() && r.Shaped() && r.g == s.g && i in r.inodes
    && forall c :: 0 <= c < s.g.size ==> (r.Used(c) <==> s.Used(c) || Has(r, i, c))
  }

  /** No block is lost: one that is marked belongs to the metadata or to an inode. */
  ghost predicate Accounted(s: Fs)
    requires s.Shaped()
  {
    forall b :: s.InUse(b) ==> s.Owned(b)
  }

  ghost predicate KeepsAccounted(s: Fs, r: Fs)
    requires s.Shaped() && r.Shaped()
  {
    Accounted(s) ==> Accounted(r)
  }

  /** The blocks that place `bn` of a file needs. */
  ghost function BmapBlocks(s: Fs, i: nat, bn: nat): (r: set<nat>)
    requires s.Shaped() && i in s.inodes && bn < MAXFILE
  {
    {s.Slot(i, Pos(bn))} + if bn < NDIRECT then {} else {s.Slot(i, NDIRECT)}
  }

  ghost predicate SameSizes(s: Fs, r: Fs)
    requires r.inodes.Keys == s.inodes.Keys
  {
    forall j :: j in s.inodes ==> r.inodes[j].size == s.inodes[j].size
  }

  ghost predicate OthersSame(s: Fs, r: Fs, i: nat)
    requires r.inodes.Keys == s.inodes.Keys
  {
    forall j :: j in s.inodes && j != i ==> r.inodes[j] == s.inodes[j]
  }

  /** The most that filewrite writes in one transaction. */
  const MAXCHUNK := (LogDisk.MAXOPBLOCKS - 1 - 1 - 2) / 2 * BSIZE

  function FreeMapBlocks(g: Super): nat { g.size / BPB + 1 }

  /** struct file, opened on an inode. */
  class File {
    const ip: nat
    const writable: bool
    var off: nat
  }

  class FileSystem {
    var s: Fs
    /** The blocks passed to log_write so far in this operation. */
    var logged: set<nat>

    /** balloc: the first free block, marked and zeroed; zero if there is none. */
    method Balloc() returns (b: nat)
      requires s.Inv()
      modifies this
      ensures b == 0 ==> s == old(s) && logged == old(logged) && Full(s)
      ensures b != 0 ==>
                && b < old(s).g.size && !old(s).Used(b) && (forall c :: 0 <= c < b ==> old(s).Used(c))
                && s == Alloc(old(s), b)
                && logged == old(logged) + {s.g.Bblock(b), b}
    {
      var base := 0;
      while base < s.g.size
        invariant s == old(s) && logged == old(logged)
        invariant base % BPB == 0
        invariant forall c :: 0 <= c < base && c < s.g.size ==> s.Used(c)
        decreases s.g.size - base
      {
        var bi := 0;
        while bi < BPB && base + bi < s.g.size
          invariant 0 <= bi <= BPB && base + bi <= s.g.size
          invariant s == old(s) && logged == old(logged)
          invariant forall c :: 0 <= c < base + bi ==> s.Used(c)
        {
          assert (base + bi) / BPB == base / BPB && (base + bi) % BPB == bi;
          if !GetBit(s.blocks[s.g.Bblock(base)], bi) {
            b := base + bi;
            s := Mark(s, b, true);
            logged := logged + {s.g.Bblock(b)};
            s := s.(blocks := s.blocks[b := ZeroBlock()]);
            logged := logged + {b};
            AllocKeeps(old(s), b);
            return b;
          }
          bi := bi + 1;
        }
        base := base + BPB;
      }
      return 0;
    }

    /** bfree; its panic on a block that is already free is a demand on the caller. A data block that
        no inode has can be freed without harm. */
    method Bfree(b: nat)
      requires s.Shaped() && b < s.g.size && s.Used(b)
      modifies this
      ensures s == Mark(old(s), b, false) && logged == old(logged) + {s.g.Bblock(b)}
      ensures old(s).Inv() && b >= s.g.datastart && !old(s).Owned(b) ==> s.Inv() && SameBytes(old(s), s)
    {
      hide Fs.Inv, SameBytes, Mark;
      if s.Inv() && b >= s.g.datastart && !s.Owned(b) { FreeSound(s, b); }
      s := Mark(s, b, false);
      logged := logged + {s.g.Bblock(b)};
    }

    /** balloc straight into a place of the inode itself. */
    method BallocAddr(i: nat, k: nat) returns (addr: nat)
      requires s.Inv() && i in s.inodes && k <= NDIRECT && s.Slot(i, k) == 0
      modifies this
      ensures s.Inv() && SameBytes(old(s), s) && s.g == old(s).g
      ensures addr == 0 ==> s == old(s) && logged == old(logged) && Full(s)
      ensures addr != 0 ==> SlotSet(old(s), s, i, k, addr) && SameSizes(old(s), s) && OthersSame(old(s), s, i)
      ensures addr != 0 ==> addr < s.g.size && (k == NDIRECT ==> s.blocks[addr] == ZeroBlock())
      ensures old(logged) <= logged
      ensures Allocs(old(s), s, old(logged), logged, {addr}) && Covered(old(s), s, logged, {})
    {
      hide Mark, Alloc, Allocs;
      addr := Balloc();
      AllocsNothing(old(s), old(logged), {addr});
      if addr != 0 {
        AllocKeeps(old(s), addr);
        AllocSameBytes(old(s), addr);
        AllocCovered(old(s), addr);
        SetAddrKeeps(s, i, k, addr);
        SetAddrSameBytes(s, i, k, addr);
        s := SetAddr(s, i, k, addr);
        AllocsOne(old(s), s, addr, old(logged), logged, {addr});
      }
    }

    /** balloc into a place of the indirect block. */
    method BallocEntry(i: nat, j: nat) returns (addr: nat)
      requires s.Inv() && i in s.inodes && s.inodes[i].addrs[NDIRECT] != 0 && j < NINDIRECT
      requires s.Slot(i, NDIRECT + 1 + j) == 0
      modifies this
      ensures s.Inv() && SameBytes(old(s), s) && s.g == old(s).g
      ensures addr == 0 ==> s == old(s) && logged == old(logged) && Full(s)
      ensures addr != 0 ==> SlotSet(old(s), s, i, NDIRECT + 1 + j, addr)
      ensures addr != 0 ==> SameSizes(old(s), s) && OthersSame(old(s), s, i)
      ensures old(logged) <= logged
      ensures Allocs(old(s), s, old(logged), logged, {addr, old(s).inodes[i].addrs[NDIRECT]})
      ensures Covered(old(s), s, logged, {})
    {
      hide Mark, Alloc, Allocs;
      addr := Balloc();
      AllocsNothing(old(s), old(logged), {addr, old(s).inodes[i].addrs[NDIRECT]});
      if addr != 0 {
        AllocKeeps(old(s), addr);
        AllocSameBytes(old(s), addr);
        AllocCovered(old(s), addr);
        SetEntryKeeps(s, i, j, addr);
        SetEntrySameBytes(s, i, j, addr);
        s := SetEntry(s, i, j, addr);
        logged := logged + {s.inodes[i].addrs[NDIRECT]};
        AllocsOne(old(s), s, addr, old(logged), logged, {addr, old(s).inodes[i].addrs[NDIRECT]});
      }
    }

    /** bmap: the block in place `bn` of the file, allocated if there was none; zero if the disk
        is full. No byte of any file changes, no block is owned twice, and none is lost. */
    method Bmap(i: nat, bn: nat) returns (addr: nat)
      requires s.Inv() && i in s.inodes && bn < MAXFILE
      modifies this
      ensures s.Inv() && SameBytes(old(s), s) && Extends(old(s), s, i, bn)
      ensures addr == s.Slot(i, Pos(bn))
      ensures addr != 0 ==>
                addr == if bn < NDIRECT then s.inodes[i].addrs[bn]
                        else GetWord(s.blocks[s.inodes[i].addrs[NDIRECT]], bn - NDIRECT)
      ensures old(s).Slot(i, Pos(bn)) != 0 ==> s == old(s) && logged == old(logged)
      ensures addr == 0 ==> Full(s)
      ensures Allocs(old(s), s, old(logged), logged, BmapBlocks(s, i, bn))
      ensures MarkedFor(old(s), s, i) && KeepsAccounted(old(s), s)
      ensures old(logged) <= logged && Covered(old(s), s, logged, {})
    {
      hide Fs.Inv, SameBytes, Allocs, MarkedFor, Accounted, Full, Extends, Covered;
      InvSame(s);
      CoveredNothing(s, logged);
      ExtendsNothing(s, i, bn);
      AllocsNothing(s, logged, BmapBlocks(s, i, bn));
      AllocsNothing(s, logged, {s.Slot(i, NDIRECT)});
      if bn < NDIRECT {
        addr := s.inodes[i].addrs[bn];
        if addr == 0 {
          addr := BallocAddr(i, bn);
          if addr != 0 { ExtendsOne(old(s), s, i, bn, bn, addr); }
        }
        assert BmapBlocks(s, i, bn) == {addr};
        BmapMarks(old(s), s, i, bn, old(logged), logged);
        return addr;
      }
      var j := bn - NDIRECT;
      addr := s.inodes[i].addrs[NDIRECT];
      if addr == 0 {
        addr := BallocAddr(i, NDIRECT);
        if addr == 0 {
          BmapMarks(old(s), s, i, bn, old(logged), logged);
          return 0;
        }
        ExtendsOne(old(s), s, i, bn, NDIRECT, addr);
      }
      ghost var m, l1 := s, logged;
      IndirectInUse(s, i);
      addr := GetWord(s.blocks[s.inodes[i].addrs[NDIRECT]], j);
      assert addr == s.Slot(i, NDIRECT + 1 + j);
      AllocsNothing(s, logged, {addr, m.Slot(i, NDIRECT)});
      if addr == 0 {
        addr := BallocEntry(i, j);
        CoveredThen(old(s), m, s, l1, logged, {});
        SameBytesTrans(old(s), m, s);
        if addr != 0 {
          ExtendsOne(m, s, i, bn, NDIRECT + 1 + j, addr);
          ExtendsTwice(old(s), m, s, i, bn);
        }
      }
      AllocsThen(old(s), m, s, old(logged), l1, logged, {m.Slot(i, NDIRECT)}, {addr, m.Slot(i, NDIRECT)},
                 BmapBlocks(s, i, bn));
      BmapMarks(old(s), s, i, bn, old(logged), logged);
      return addr;
    }

    /** One turn of writei's loop: bmap, bread, either_copyin of `chunk`, log_write, brelse. Only the
        first `good` bytes of the chunk can be read from the caller; the copy fails past them. */
    method WriteChunk(i: nat, off: nat, chunk: seq<Byte>, good: nat) returns (ok: bool, ghost w: seq<Byte>)
      requires s.Inv() && i in s.inodes && off < MAXFILE * BSIZE && At(off) + |chunk| <= BSIZE
      modifies this
      ensures s.Inv() && Extends(old(s), s, i, Bn(off)) && Spliced(old(s), s, i, off, w)
      ensures w <= chunk && (ok ==> w == chunk) && (!ok && good >= |chunk| ==> w == [])
      ensures ok ==> good >= |chunk| && s.Slot(i, Pos(Bn(off))) != 0
      ensures !ok ==> (w == [] && Full(s)) || (good < |chunk| && w == chunk[..good])
      ensures old(logged) <= logged
      ensures Covered(old(s), s, logged, if ok || w == [] then {} else {s.Slot(i, Pos(Bn(off)))})
      ensures Allocs(old(s), s, old(logged), logged, BmapBlocks(s, i, Bn(off)))
    {
      hide WriteBlock, PutBytes, Fs.Inv, SameBytes, Spliced, Full, Allocs, MarkedFor, Accounted, Covered;
      var addr := Bmap(i, Bn(off));
      if addr == 0 {
        SplicedNothing(old(s), s, i, off);
        return false, [];
      }
      var n := if good < |chunk| then good else |chunk|;
      ghost var m := s;
      WriteBlockBytes(s, i, Bn(off), At(off), chunk[..n]);
      s := WriteBlock(s, addr, At(off), chunk[..n]);
      SplicedAfterSame(old(s), m, s, i, off, chunk[..n]);
      ExtendsSameSlots(old(s), m, s, i, Bn(off));
      assert BmapBlocks(s, i, Bn(off)) == BmapBlocks(m, i, Bn(off));
      AllocsWritten(old(s), m, s, old(logged), logged, BmapBlocks(s, i, Bn(off)), addr);
      WriteCovered(m, addr, At(off), chunk[..n], logged);
      CoveredThen(old(s), m, s, logged, logged, if n == 0 then {} else {addr});
      CoveredThen(old(s), m, s, logged, logged + {addr}, {});
      if n < |chunk| {
        return false, chunk[..n];
      }
      logged := logged + {addr};
      return true, chunk[..n];
    }

    /** writei's loop: `tot` bytes stored for good, `w` of them and of a chunk that failed. */
    method WriteLoop(i: nat, src: seq<Byte>, off: nat, good: nat) returns (tot: nat, ghost w: seq<Byte>)
      requires s.Inv() && i in s.inodes && off + |src| <= MAXFILE * BSIZE
      modifies this
      ensures s.Shaped() && i in s.inodes && Writing(old(s), s, i, off, tot, w)
      ensures tot <= |w| && tot <= |src| && tot <= good && w <= src && (good >= |src| ==> |w| == tot)
      ensures tot < |src| ==> (|w| == tot && Full(s)) || CutShort(src, good, tot, w)
      ensures |w| > tot ==> tot < |src|
      ensures old(logged) <= logged && Covered(old(s), s, logged, Torn(s, i, off, tot, w))
      ensures Allocs(old(s), s, old(logged), logged, WriteBlocks(s, i, Bn(off), BnUp(off + |src|)))
    {
      hide Spliced, Extends, Allocs, WriteBlocks, Writing, BmapBlocks, Covered, Torn, Full;
      hide Fs.Inv, Fs.Slot, Bn, At, BnUp;
      w := [];
      tot := 0;
      var n := |src|;
      FirstChunk(off, n);
      ghost var lo, hi := Bn(off), Bn(off);
      WritingStart(s, i, off, lo, logged);
      CoveredNothing(s, logged);
      while tot < n
        invariant 0 <= tot <= n && (tot < n ==> hi == Bn(off + tot)) && lo <= hi <= BnUp(off + n)
        invariant s.Shaped() && i in s.inodes && Writing(old(s), s, i, off, tot, w)
        invariant w == src[..tot] && tot <= good && old(logged) <= logged && Covered(old(s), s, logged, {})
        invariant Allocs(old(s), s, old(logged), logged, WriteBlocks(s, i, lo, hi))
      {
        NextChunk(off, tot, n);
        var m := if n - tot < BSIZE - At(off + tot) then n - tot else BSIZE - At(off + tot);
        ghost var s1, l1 := s, logged;
        ghost var x;
        WritingInv(old(s), s, i, off, tot, w);
        var ok;
        ok, x := WriteChunk(i, off + tot, src[tot..tot + m], if good < tot then 0 else good - tot);
        WritingStep(old(s), s1, s, i, off, tot, w, x, if ok then m else 0);
        MoreBlocks(old(s), s1, s, i, lo, hi, old(logged), l1, logged);
        CoveredThen(old(s), s1, s, l1, logged, if ok || x == [] then {} else {s.Slot(i, Pos(Bn(off + tot)))});
        hi := hi + 1;
        BlocksWiden(old(s), s, i, lo, hi, BnUp(off + n), old(logged), logged);
        if !ok {
          TornBy(s, i, off, tot, m, src, good, w, x);
          return tot, w + x;
        }
        tot := tot + m;
        w := w + x;
      }
      BlocksWiden(old(s), s, i, lo, hi, BnUp(off + n), old(logged), logged);
      NotTorn(s, i, off, tot, w);
    }

    /** writei: stores as much of `src` as it can, up to the first unreadable byte or a full disk,
        and grows the file to cover it. Returns -1, having done nothing, if the range does not
        start inside the file or ends past the largest file. */
    method Writei(i: nat, src: seq<Byte>, off: nat, good: nat) returns (r: int, ghost w: seq<Byte>)
      requires s.Inv() && i in s.inodes && off < 0x1_0000_0000 && |src| < 0x1_0000_0000
      modifies this
      ensures s.g == old(s).g && s.inodes.Keys == old(s).inodes.Keys && s.Inv()
      ensures r == -1 <==> off > old(s).inodes[i].size || off + |src| > MAXFILE * BSIZE
      ensures r == -1 ==> s == old(s) && logged == old(logged)
      ensures r != -1 ==> 0 <= r <= |w| && w <= src && Spliced(old(s), s, i, off, w)
      ensures r != -1 && good >= |src| ==> r == |w| && (r < |src| ==> Full(s))
      ensures r != -1 ==> r <= good && (r < |src| ==> (|w| == r && Full(s)) || CutShort(src, good, r, w))
      ensures r != -1 ==> s.inodes[i].size == Larger(off + r, old(s).inodes[i].size)
      ensures r != -1 ==> OthersSame(old(s), s, i) && KeepsMapped(old(s), s)
      ensures r != -1 ==> MarkedFor(old(s), s, i) && KeepsAccounted(old(s), s)
      ensures r != -1 ==> s.g.Iblock(i) in logged && Covered(old(s), s, logged, Torn(s, i, off, r, w))
      ensures r != -1 ==> WriteCost(old(s), s, i, Bn(off), BnUp(off + |src|), old(logged), logged)
    {
      hide Spliced, Allocs, WriteCost, WriteBlocks, Covered, Torn, Mapped, MarkedFor, Accounted, Full;
      hide Fs.Inv, Fs.Slot, Bn, BnUp;
      w := [];
      if off > s.inodes[i].size || (off + |src|) % 0x1_0000_0000 < off {
        return -1, [];
      }
      if off + |src| > MAXFILE * BSIZE {
        return -1, [];
      }
      var tot;
      tot, w := WriteLoop(i, src, off, good);
      ghost var s2, l2 := s, logged;
      if off + tot > s.inodes[i].size {
        s := s.(inodes := s.inodes[i := s.inodes[i].(size := off + tot)]);
      }
      logged := logged + {s.g.Iblock(i)};
      WritingDone(old(s), s2, s, i, off, tot, w);
      WriteMarks(old(s), s2, s, i, off, tot, w, BnUp(off + |src|), old(logged), l2);
      CoveredResized(old(s), s2, s, i, off, tot, w, l2, logged);
      return tot, w;
    }

    /** One turn of readi's loop: bmap, bread, either_copyout of `m` bytes, of which `n` get there. */
    method ReadChunk(i: nat, o: nat, m: nat, n: nat) returns (x: seq<Byte>)
      requires s.Inv() && i in s.inodes && Mapped(s, i) && o + m <= s.inodes[i].size && 0 < m && At(o) + m <= BSIZE
      requires n <= m
      modifies this
      ensures s == old(s) && logged == old(logged)
      ensures |x| == n && forall k :: 0 <= k < n ==> x[k] == ByteAt(s, i, o + k)
    {
      hide Fs.Slot, SameBytes, Allocs, BmapBlocks, MarkedFor, Accounted, Full, Covered;
      ReadBlock(s, i, o);
      var addr := Bmap(i, Bn(o));
      x := s.blocks[addr][At(o)..At(o) + n];
      ReadBytes(s, i, o, m);
    }

    /** readi: the bytes of the file from `off`, as many as there are and were asked for. A file
        whose blocks are all mapped is read without allocating, so reading needs no transaction.
        Only `good` bytes can be stored at the caller. */
    method Readi(i: nat, off: nat, n: nat, good: nat) returns (r: int, dst: seq<Byte>)
      requires s.Inv() && i in s.inodes && Mapped(s, i) && off < 0x1_0000_0000 && n < 0x1_0000_0000
      modifies this
      ensures s == old(s) && logged == old(logged)
      ensures off > s.inodes[i].size || off + n >= 0x1_0000_0000 ==> r == 0 && dst == []
      ensures off <= s.inodes[i].size && off + n < 0x1_0000_0000 ==>
                var k := if off + n > s.inodes[i].size then s.inodes[i].size - off else n;
                && r == (if good < k then -1 else k) && |dst| == (if good < k then good else k)
                && forall o :: 0 <= o < |dst| ==> dst[o] == ByteAt(s, i, off + o)
    {
      hide Fs.Inv, Fs.Slot, ByteAt;
      if off > s.inodes[i].size || (off + n) % 0x1_0000_0000 < off {
        return 0, [];
      }
      MappedShaped(s, i);
      var k := n;
      if off + n > s.inodes[i].size {
        k := s.inodes[i].size - off;
      }
      var tot := 0;
      dst := [];
      while tot < k
        invariant 0 <= tot <= k && tot <= good && s == old(s) && logged == old(logged)
        invariant |dst| == tot && forall o :: 0 <= o < tot ==> dst[o] == ByteAt(s, i, off + o)
      {
        var at := At(off + tot);
        var m := if k - tot < BSIZE - at then k - tot else BSIZE - at;
        var x := ReadChunk(i, off + tot, m, if good - tot < m then good - tot else m);
        forall o | tot <= o < tot + |x| ensures (dst + x)[o] == ByteAt(s, i, off + o) {
          assert x[o - tot] == ByteAt(s, i, off + tot + (o - tot));
        }
        dst := dst + x;
        if good < tot + m {
          return -1, dst;
        }
        tot := tot + m;
      }
      return tot, dst;
    }

    /** One turn of itrunc's loop over the direct blocks. */
    method FreeDirect(i: nat, k: nat, ghost s0: Fs)
      requires Truncating(s0, s, i, k) && k < NDIRECT && s.inodes[i].addrs[k] == s0.inodes[i].addrs[k]
      modifies this
      ensures Truncating(s0, s, i, k + 1) && s.inodes[i].addrs == old(s.inodes[i].addrs)[k := 0]
      ensures Frees(old(s), s, old(logged), logged)
    {
      hide Holds, Fs.Inv, Left, Mark, Frees;
      TruncateStep(s0, s, i, k);
      FreesNothing(s, logged);
      var b := s.inodes[i].addrs[k];
      if b != 0 {
        FreesMark(s, s, logged, logged, b);
        Bfree(b);
        FreesSame(old(s), s, SetAddr(s, i, k, 0), old(logged), logged);
        TruncateField(s0, s, i, k + 1, s.inodes[i].(addrs := s.inodes[i].addrs[k := 0]));
        s := SetAddr(s, i, k, 0);
      }
    }

    /** itrunc's loop over the indirect block. */
    method FreeEntries(i: nat, ghost s0: Fs)
      requires Truncating(s0, s, i, NDIRECT) && s.inodes[i].addrs[NDIRECT] == s0.inodes[i].addrs[NDIRECT] != 0
      modifies this
      ensures Truncating(s0, s, i, MAXFILE) && s.inodes == old(s).inodes
      ensures Frees(old(s), s, old(logged), logged)
    {
      hide Holds, Left, Mark, Fs.Used, Frees;
      IndirectInUse(s0, i);
      FreesNothing(s, logged);
      var a := s.blocks[s.inodes[i].addrs[NDIRECT]];
      for j := 0 to NINDIRECT
        invariant Truncating(s0, s, i, NDIRECT + j) && s.inodes == old(s).inodes
        invariant Frees(old(s), s, old(logged), logged)
      {
        TruncateStep(s0, s, i, NDIRECT + j);
        var b := GetWord(a, j);
        assert b == s0.Slot(i, Place(NDIRECT + j));
        if b != 0 {
          FreesMark(old(s), s, old(logged), logged, b);
          Bfree(b);
        }
      }
    }

    /** itrunc's loop over the direct blocks. */
    method FreeDirects(i: nat)
      requires s.Inv() && i in s.inodes
      modifies this
      ensures Truncating(old(s), s, i, NDIRECT) && Frees(old(s), s, old(logged), logged) && s.g == old(s).g
      ensures s.inodes[i].addrs[NDIRECT] == old(s).inodes[i].addrs[NDIRECT]
      ensures forall l :: 0 <= l < NDIRECT ==> s.inodes[i].addrs[l] == 0
    {
      hide Holds, Left, Mark, Fs.Slot, Fs.Used, Frees;
      TruncateStart(s, i);
      FreesNothing(s, logged);
      for k := 0 to NDIRECT
        invariant Truncating(old(s), s, i, k) && Frees(old(s), s, old(logged), logged)
        invariant forall l :: 0 <= l < k ==> s.inodes[i].addrs[l] == 0
        invariant forall l :: k <= l <= NDIRECT ==> s.inodes[i].addrs[l] == old(s).inodes[i].addrs[l]
      {
        ghost var s1, l1 := s, logged;
        FreeDirect(i, k, old(s));
        FreesThen(old(s), s1, s, old(logged), l1, logged);
      }
    }

    /** The rest of itrunc's freeing: the entries of the indirect block and the block itself. Also
        good for the inode with its size cleared. */
    method FreeIndirect(i: nat, ghost s0: Fs)
      requires Truncating(s0, s, i, NDIRECT) && s.inodes[i].addrs[NDIRECT] == s0.inodes[i].addrs[NDIRECT]
      requires forall l :: 0 <= l < NDIRECT ==> s.inodes[i].addrs[l] == 0
      modifies this
      ensures s.Shaped() && i in s.inodes
      ensures Truncating(s0, s.(inodes := s.inodes[i := s.inodes[i].(size := 0)]), i, SLOTS)
      ensures s.g == s0.g && Frees(old(s), s, old(logged), logged)
      ensures forall l :: 0 <= l <= NDIRECT ==> s.inodes[i].addrs[l] == 0
    {
      hide Truncating, Mark, Fs.Inv, Fs.Slot, Fs.Used, Frees;
      TruncateOthers(s0, s, i, NDIRECT);
      FreesNothing(s, logged);
      if s.inodes[i].addrs[NDIRECT] != 0 {
        FreeEntries(i, s0);
        TruncateOthers(s0, s, i, MAXFILE);
        TruncateStep(s0, s, i, MAXFILE);
        SlotIndirect(s0, i);
        ghost var b := s.inodes[i].addrs[NDIRECT];
        FreesMark(old(s), s, old(logged), logged, b);
        Bfree(s.inodes[i].addrs[NDIRECT]);
        TruncateField(s0, s, i, SLOTS, s.inodes[i].(addrs := s.inodes[i].addrs[NDIRECT := 0]));
        FreesSame(old(s), s, SetAddr(s, i, NDIRECT, 0), old(logged), logged);
        s := SetAddr(s, i, NDIRECT, 0);
      } else {
        TruncateNoIndirect(s0, s, i);
      }
      TruncateField(s0, s, i, SLOTS, s.inodes[i].(size := 0));
    }

    /** itrunc: the inode is empty, its blocks and no others are free again, and no other file has
        changed. No block is freed twice. */
    method Itrunc(i: nat)
      requires s.Inv() && i in s.inodes
      modifies this
      ensures s.Inv() && s.g == old(s).g && s.inodes.Keys == old(s).inodes.Keys && OthersSame(old(s), s, i)
      ensures s.inodes[i].size == 0 && forall k :: 0 <= k < SLOTS ==> s.Slot(i, k) == 0
      ensures forall c :: 0 <= c < s.g.size ==> s.Used(c) == (old(s).Used(c) && !Has(old(s), i, c))
      ensures forall j, o :: j in s.inodes && j != i && 0 <= o < MAXFILE * BSIZE ==>
                ByteAt(s, j, o) == ByteAt(old(s), j, o)
      ensures KeepsMapped(old(s), s) && Mapped(s, i) && KeepsAccounted(old(s), s)
      ensures Logs(old(s), s, old(logged), logged, {s.g.Iblock(i)})
      ensures s.g.Iblock(i) in logged && Covered(old(s), s, logged, {})
    {
      hide Covered, Truncating, Fs.Inv, Fs.Slot, Fs.Used, Has, ByteAt, OthersSame, Frees, Logs, Accounted;
      FreeDirects(i);
      ghost var s1, l1 := s, logged;
      FreeIndirect(i, old(s));
      FreesThen(old(s), s1, s, old(logged), l1, logged);
      FreesLogs(old(s), s, s.(inodes := s.inodes[i := s.inodes[i].(size := 0)]), old(logged), logged, s.g.Iblock(i));
      s := s.(inodes := s.inodes[i := s.inodes[i].(size := 0)]);
      logged := logged + {s.g.Iblock(i)};
      assert s.inodes[i].addrs == seq(NDIRECT + 1, _ => 0);
      TruncateDone(old(s), s, i);
      TruncateOthers(old(s), s, i, SLOTS);
      TruncatedMapped(old(s), s, i);
      TruncatedAccounted(old(s), s, i);
    }

    /** One transaction of filewrite: begin_op, writei of at most MAXCHUNK bytes, end_op. It logs the
        inode's block, the indirect block, at most four data blocks, and a block of the free map for
        each block it allocates: four at most in a file whose blocks are mapped. */
    method WriteOp(i: nat, src: seq<Byte>, off: nat, good: nat) returns (r: int, ghost w: seq<Byte>)
      requires s.Inv() && i in s.inodes && off < 0x1_0000_0000 && |src| <= MAXCHUNK
      modifies this
      ensures s.g == old(s).g && s.inodes.Keys == old(s).inodes.Keys && s.Inv()
      ensures |logged| <= 6 + FreeMapBlocks(s.g) && |logged| <= LogDisk.MAXOPBLOCKS + 1
      ensures Mapped(old(s), i) ==> |logged| <= ChunkLogs(s.g)
      ensures r == -1 <==> off > old(s).inodes[i].size || off + |src| > MAXFILE * BSIZE
      ensures r == -1 ==> s == old(s)
      ensures r != -1 ==> 0 <= r <= |w| && w <= src && Spliced(old(s), s, i, off, w)
      ensures r != -1 && good >= |src| ==> r == |w| && (r < |src| ==> Full(s))
      ensures r != -1 ==> r <= good && (r < |src| ==> (|w| == r && Full(s)) || CutShort(src, good, r, w))
      ensures r != -1 ==> s.inodes[i].size == Larger(off + r, old(s).inodes[i].size)
      ensures r != -1 ==> OthersSame(old(s), s, i) && KeepsMapped(old(s), s)
      ensures r != -1 ==> MarkedFor(old(s), s, i) && KeepsAccounted(old(s), s)
      ensures r != -1 ==> s.g.Iblock(i) in logged && Covered(old(s), s, logged, Torn(s, i, off, r, w))
    {
      hide Fs.Inv, Spliced, Full, Mapped, MarkedFor, Accounted, WriteCost, Covered, Torn, Fs.Slot, BnUp, Bn;
      logged := {};
      r, w := Writei(i, src, off, good);
      if r != -1 {
        InvSame(s);
        LogBound(old(s), s, i, off, |src|, logged);
      }
    }

    /** filewrite on an inode: `src` in transactions of at most MAXCHUNK bytes, each from the file's
        offset, which moves with every byte written. All of `src`, or -1 and the offset tells how
        much; what stopped it is an unreadable byte, a full disk, or the end of the largest file. */
    method Filewrite(f: File, src: seq<Byte>, good: nat) returns (r: int, ghost w: seq<Byte>)
      requires s.Inv() && f.ip in s.inodes && f.off < 0x1_0000_0000
      modifies this, f`off
      ensures Wrote(old(s), s, f.ip, old(f.off), f.off, w) && w <= src
      ensures !f.writable ==> r == -1 && s == old(s) && f.off == old(f.off)
      ensures r == -1 || (r == |src| <= good && w == src)
      ensures r != -1 || good >= |src| ==> f.off == old(f.off) + |w|
      ensures f.writable && r == -1 && good < |src| ==>
                || Full(s) || old(f.off) > old(s).inodes[f.ip].size || old(f.off) + |src| > MAXFILE * BSIZE
                || CutShort(src, good, f.off - old(f.off), w)
      ensures f.writable && r == -1 && good >= |src| ==>
                Full(s) || old(f.off) > old(s).inodes[f.ip].size || old(f.off) + |src| > MAXFILE * BSIZE
    {
      hide Wrote, Fs.Inv, Spliced, Full, Mapped, MarkedFor, Accounted, Covered, Torn, OthersSame, Fs.Slot;
      w := [];
      WroteNothing(s, f.ip, f.off);
      if !f.writable {
        return -1, [];
      }
      var i := 0;
      while i < |src|
        invariant 0 <= i <= |src| && i <= good && w == src[..i] && f.off == old(f.off) + i
        invariant Wrote(old(s), s, f.ip, old(f.off), f.off, w)
      {
        WroteInv(old(s), s, f.ip, old(f.off), f.off, w);
        var n1 := if |src| - i > MAXCHUNK then MAXCHUNK else |src| - i;
        ghost var s1 := s;
        ghost var x;
        var r1;
        r1, x := WriteOp(f.ip, src[i..i + n1], f.off, if good < i then 0 else good - i);
        if r1 == -1 {
          return -1, w;
        }
        WroteStep(old(s), s1, s, f.ip, old(f.off), f.off, w, x, r1);
        PrefixJoin(src, i, i + n1, x);
        w := w + x;
        if r1 > 0 {
          f.off := f.off + r1;
        }
        if r1 != n1 {
          return -1, w;
        }
        i := i + r1;
      }
      return |src|, w;
    }
  }

  /** The file is no larger than files can be, and every block below its size is mapped. */
  ghost predicate Mapped(s: Fs, i: nat)
    requires s.Shaped() && i in s.inodes
  {
    && s.inodes[i].size <= MAXFILE * BSIZE
    && forall bn :: 0 <= bn < MAXFILE && bn * BSIZE < s.inodes[i].size ==> s.Slot(i, Pos(bn)) != 0
  }

  /** Files whose blocks are mapped stay so. */
  ghost predicate KeepsMapped(s: Fs, r: Fs)
    requires s.Shaped() && r.Shaped() && r.inodes.Keys == s.inodes.Keys
  {
    forall j :: j in s.inodes && Mapped(s, j) ==> Mapped(r, j)
  }

  /** The blocks that places `lo` to `hi` of a file need. */
  ghost function WriteBlocks(s: Fs, i: nat, lo: nat, hi: nat): (r: set<nat>)
    requires s.Shaped() && i in s.inodes
  {
    {s.Slot(i, NDIRECT)} + set bn | lo <= bn < hi && bn < MAXFILE :: s.Slot(i, Pos(bn))
  }

  /** writei has stored `w`, the first `tot` bytes of it for good. */
  ghost predicate Writing(s0: Fs, s: Fs, i: nat, off: nat, tot: nat, w: seq<Byte>) {
    && s0.Shaped() && s.Inv() && s.g == s0.g && s.inodes.Keys == s0.inodes.Keys && i in s.inodes && SameSizes(s0, s)
    && Spliced(s0, s, i, off, w)
    && (forall j, l :: j in s0.inodes && 0 <= l < SLOTS && (j != i || s0.Slot(j, l) != 0) ==>
        s.Slot(j, l) == s0.Slot(j, l))
    && OthersSame(s0, s, i)
    && (tot > 0 ==> forall bn :: Bn(off) <= bn < MAXFILE && bn * BSIZE < off + tot ==> s.Slot(i, Pos(bn)) != 0)
  }

  // What is marked and logged

  lemma AllocsNothing(s: Fs, l: set<nat>, bs: set<nat>)
    requires s.Shaped()
    ensures Allocs(s, s, l, l, bs)
  {
  }

  lemma AllocsOne(s: Fs, r: Fs, b: nat, l0: set<nat>, l: set<nat>, bs: set<nat>)
    requires s.Shaped() && r.Shaped() && r.g == s.g && 0 < b < s.g.size && !s.Used(b) && b in bs
    requires forall c :: 0 <= c < s.g.size ==> r.Used(c) == (c == b || s.Used(c))
    requires l0 <= l && forall x :: x in l ==> x in l0 || x == s.g.Bblock(b) || (x in bs && x != 0)
    ensures Allocs(s, r, l0, l, bs)
  {
    assert b in Changed(s, r);
  }

  lemma AllocsThen(s0: Fs, s1: Fs, s2: Fs, l0: set<nat>, l1: set<nat>, l2: set<nat>,
                   b1: set<nat>, b2: set<nat>, b: set<nat>)
    requires Allocs(s0, s1, l0, l1, b1) && Allocs(s1, s2, l1, l2, b2)
    requires forall x :: (x in b1 || x in b2) && x != 0 ==> x in b
    ensures Allocs(s0, s2, l0, l2, b)
  {
    hide Fs.Used;
    assert Changed(s0, s1) <= Changed(s0, s2) && Changed(s1, s2) <= Changed(s0, s2);
    MoreMapBlocks(s0.g, Changed(s0, s1), Changed(s0, s2));
    MoreMapBlocks(s0.g, Changed(s1, s2), Changed(s0, s2));
  }

  lemma MoreMapBlocks(g: Super, cs: set<nat>, ds: set<nat>)
    requires cs <= ds
    ensures MapBlocks(g, cs) <= MapBlocks(g, ds)
  {
  }

  lemma AllocsWritten(s0: Fs, s: Fs, r: Fs, l0: set<nat>, l: set<nat>, bs: set<nat>, b: nat)
    requires Allocs(s0, s, l0, l, bs) && r.Shaped() && r.g == s.g && b in bs && b != 0
    requires forall c :: 0 <= c < s.g.size ==> r.Used(c) == s.Used(c)
    ensures Allocs(s0, r, l0, l, bs) && Allocs(s0, r, l0, l + {b}, bs)
  {
    hide Fs.Used;
    assert Changed(s0, r) == Changed(s0, s);
  }

  lemma CoveredNothing(s: Fs, l: set<nat>)
    ensures Covered(s, s, l, {})
  {
  }

  lemma CoveredThen(s: Fs, m: Fs, r: Fs, l: set<nat>, l': set<nat>, torn: set<nat>)
    requires Covered(s, m, l, {}) && Covered(m, r, l', torn) && l <= l'
    ensures Covered(s, r, l', torn)
  {
    forall b | 0 <= b < |s.blocks| && r.blocks[b] != s.blocks[b] ensures b in l' || b in torn {
      if m.blocks[b] == s.blocks[b] { assert r.blocks[b] != m.blocks[b]; }
    }
  }

  lemma AllocCovered(s: Fs, b: nat)
    requires s.Shaped() && b < s.g.size
    ensures Covered(s, Alloc(s, b), {s.g.Bblock(b), b}, {})
  {
  }

  lemma WriteCovered(s: Fs, a: nat, at: nat, src: seq<Byte>, l: set<nat>)
    requires s.Shaped() && a < s.g.size && at + |src| <= BSIZE
    ensures Covered(s, WriteBlock(s, a, at, src), l, if |src| == 0 then {} else {a})
    ensures Covered(s, WriteBlock(s, a, at, src), l + {a}, {})
  {
    if |src| == 0 { assert PutBytes(s.blocks[a], at, src) == s.blocks[a]; }
  }

  /** The copy failed inside a chunk, whose `good` bytes are stored but not counted. */
  ghost predicate CutShort(src: seq<Byte>, good: nat, tot: nat, w: seq<Byte>) {
    tot <= good < |src| && good < tot + BSIZE && w == src[..good]
  }

  /** The block that a failed copy has changed without logging it. */
  ghost function Torn(s: Fs, i: nat, off: nat, tot: nat, w: seq<Byte>): (t: set<nat>)
    requires s.Shaped() && i in s.inodes
  {
    if |w| > tot && Bn(off + tot) < MAXFILE then {s.Slot(i, Pos(Bn(off + tot)))} else {}
  }

  lemma NotTorn(s: Fs, i: nat, off: nat, tot: nat, w: seq<Byte>)
    requires s.Shaped() && i in s.inodes && |w| == tot
    ensures Torn(s, i, off, tot, w) == {}
  {
  }

  lemma TornBy(s: Fs, i: nat, off: nat, tot: nat, m: nat, src: seq<Byte>, good: nat, w: seq<Byte>, x: seq<Byte>)
    requires s.Shaped() && i in s.inodes && Bn(off + tot) < MAXFILE && tot <= good && tot + m <= |src| && m <= BSIZE
    requires w == src[..tot]
    requires x == [] || (good - tot < m && x == src[tot..tot + m][..good - tot])
    ensures Torn(s, i, off, tot, w + x) == if x == [] then {} else {s.Slot(i, Pos(Bn(off + tot)))}
    ensures x != [] || (good - tot < m && x == src[tot..tot + m][..good - tot]) ==> CutShort(src, good, tot, w + x)
  {
    if good - tot < m && x == src[tot..tot + m][..good - tot] { assert w + x == src[..good]; }
  }

  lemma CoveredResized(s0: Fs, s: Fs, r: Fs, i: nat, off: nat, tot: nat, w: seq<Byte>, l: set<nat>, l': set<nat>)
    requires SameSlots(s, r) && i in s.inodes && r.blocks == s.blocks && l <= l'
    requires Covered(s0, s, l, Torn(s, i, off, tot, w))
    ensures Covered(s0, r, l', Torn(r, i, off, tot, w))
  {
    hide Fs.Slot;
    assert Torn(r, i, off, tot, w) == Torn(s, i, off, tot, w);
  }

  lemma FreesNothing(s: Fs, l: set<nat>)
    requires s.Shaped()
    ensures Frees(s, s, l, l)
  {
  }

  lemma FreesMark(s0: Fs, s: Fs, l0: set<nat>, l: set<nat>, b: nat)
    requires Frees(s0, s, l0, l) && b < s.g.size && s.Used(b)
    ensures Frees(s0, Mark(s, b, false), l0, l + {s.g.Bblock(b)})
  {
    hide Fs.Used, Mark;
    var r := Mark(s, b, false);
    assert b in Changed(s0, r);
    assert Changed(s0, s) <= Changed(s0, r);
    MoreMapBlocks(s0.g, Changed(s0, s), Changed(s0, r));
  }

  /** Inodes have no part in what is marked. */
  lemma FreesSame(s0: Fs, s: Fs, r: Fs, l0: set<nat>, l: set<nat>)
    requires Frees(s0, s, l0, l) && r.Shaped() && r.g == s.g && r.blocks == s.blocks
    ensures Frees(s0, r, l0, l)
  {
    assert Changed(s0, r) == Changed(s0, s);
  }

  lemma FreesThen(s0: Fs, s1: Fs, s2: Fs, l0: set<nat>, l1: set<nat>, l2: set<nat>)
    requires Frees(s0, s1, l0, l1) && Frees(s1, s2, l1, l2)
    ensures Frees(s0, s2, l0, l2)
  {
    hide Fs.Used;
    assert Changed(s0, s1) <= Changed(s0, s2) && Changed(s1, s2) <= Changed(s0, s2);
    MoreMapBlocks(s0.g, Changed(s0, s1), Changed(s0, s2));
    MoreMapBlocks(s0.g, Changed(s1, s2), Changed(s0, s2));
  }

  lemma FreesLogs(s0: Fs, s: Fs, r: Fs, l0: set<nat>, l: set<nat>, x: nat)
    requires Frees(s0, s, l0, l) && r.Shaped() && r.g == s.g && r.blocks == s.blocks && x != 0
    ensures Logs(s0, r, l0, l + {x}, {x}) && Covered(s0, r, l + {x}, {})
  {
    FreesSame(s0, s, r, l0, l);
  }

  ghost predicate SlotsKept(s: Fs, r: Fs) {
    && s.Shaped() && r.Shaped() && r.g == s.g && r.inodes.Keys == s.inodes.Keys
    && forall j, l :: j in s.inodes && 0 <= l < SLOTS && s.Slot(j, l) != 0 ==> r.Slot(j, l) == s.Slot(j, l)
  }

  lemma KeptAccounted(s: Fs, r: Fs, i: nat)
    requires SlotsKept(s, r) && MarkedFor(s, r, i)
    ensures KeepsAccounted(s, r)
  {
    hide Fs.Slot, Fs.Used;
    forall b | Accounted(s) && r.InUse(b) ensures r.Owned(b) {
      if s.InUse(b) {
        var j, l :| j in s.inodes && 0 <= l < SLOTS && s.Slot(j, l) == b;
        assert r.Slot(j, l) == b;
      }
    }
  }

  lemma MarksFor(s: Fs, r: Fs, i: nat, bs: set<nat>)
    requires Marks(s, r, bs) && r.Inv() && i in r.inodes && forall x :: x in bs && x != 0 ==> Has(r, i, x)
    ensures MarkedFor(s, r, i)
  {
    hide Fs.Slot, Fs.Used;
    forall c | 0 <= c < s.g.size && Has(r, i, c) ensures r.Used(c) {
      var k :| 0 <= k < SLOTS && r.Slot(i, k) == c;
      assert r.InUse(c);
    }
  }

  lemma BmapMarks(s0: Fs, s: Fs, i: nat, bn: nat, l0: set<nat>, l: set<nat>)
    requires s.Inv() && Extends(s0, s, i, bn) && bn < MAXFILE && Allocs(s0, s, l0, l, BmapBlocks(s, i, bn))
    ensures MarkedFor(s0, s, i) && KeepsAccounted(s0, s)
  {
    hide Fs.Slot, Fs.Used, Fs.Inv, Accounted, MarkedFor;
    MarksFor(s0, s, i, BmapBlocks(s, i, bn));
    KeptAccounted(s0, s, i);
  }

  /** What writei has marked and logged, and that it has changed no place that was taken. */
  ghost predicate WriteCost(s0: Fs, s: Fs, i: nat, lo: nat, hi: nat, l0: set<nat>, l: set<nat>) {
    && SlotsKept(s0, s) && i in s.inodes && Marks(s0, s, WriteBlocks(s, i, lo, hi))
    && Logs(s0, s, l0, l, {s.g.Iblock(i)} + WriteBlocks(s, i, lo, hi))
  }

  lemma SameWriteBlocks(s: Fs, r: Fs, i: nat, lo: nat, hi: nat)
    requires SameSlots(s, r) && i in s.inodes
    ensures WriteBlocks(r, i, lo, hi) == WriteBlocks(s, i, lo, hi)
    ensures forall x :: x in WriteBlocks(r, i, lo, hi) && x != 0 ==> Has(r, i, x)
  {
    hide Fs.Slot;
    assert r.Slot(i, NDIRECT) == s.Slot(i, NDIRECT);
    forall bn | lo <= bn < hi && bn < MAXFILE ensures r.Slot(i, Pos(bn)) == s.Slot(i, Pos(bn)) {
    }
  }

  lemma WriteMarks(s0: Fs, s: Fs, r: Fs, i: nat, off: nat, tot: nat, w: seq<Byte>, hi: nat, l0: set<nat>, l: set<nat>)
    requires Writing(s0, s, i, off, tot, w) && Allocs(s0, s, l0, l, WriteBlocks(s, i, Bn(off), hi))
    requires r.Inv() && SameSlots(s, r) && forall c :: 0 <= c < s.g.size ==> r.Used(c) == s.Used(c)
    ensures MarkedFor(s0, r, i) && KeepsAccounted(s0, r)
    ensures WriteCost(s0, r, i, Bn(off), hi, l0, l + {r.g.Iblock(i)})
  {
    hide Fs.Slot, Fs.Used, Fs.Inv, Accounted, MarkedFor, Spliced, WriteBlocks;
    var bs := WriteBlocks(r, i, Bn(off), hi);
    SameWriteBlocks(s, r, i, Bn(off), hi);
    assert Changed(s0, r) == Changed(s0, s);
    MarksFor(s0, r, i, bs);
    KeptAccounted(s0, r, i);
  }

  lemma InvSame(s: Fs)
    requires s.Inv()
    ensures s.Shaped() && SameBytes(s, s)
  {
  }

  lemma SameBytesTrans(s: Fs, m: Fs, r: Fs)
    requires SameBytes(s, m) && SameBytes(m, r)
    ensures SameBytes(s, r)
  {
    forall i, o | i in s.inodes && 0 <= o < MAXFILE * BSIZE ensures ByteAt(r, i, o) == ByteAt(s, i, o) {
      assert ByteAt(m, i, o) == ByteAt(s, i, o);
    }
  }

  lemma SplicedNothing(s: Fs, r: Fs, i: nat, off: nat)
    requires SameBytes(s, r)
    ensures Spliced(s, r, i, off, [])
  {
  }

  lemma SplicedAfterSame(s: Fs, m: Fs, r: Fs, i: nat, off: nat, w: seq<Byte>)
    requires SameBytes(s, m) && Spliced(m, r, i, Bn(off) * BSIZE + At(off), w)
    ensures Spliced(s, r, i, off, w)
  {
    assert Bn(off) * BSIZE + At(off) == off;
    forall j, o | j in s.inodes && 0 <= o < MAXFILE * BSIZE
      ensures ByteAt(r, j, o) == if j == i && off <= o < off + |w| then w[o - off] else ByteAt(s, j, o)
    {
      assert ByteAt(m, j, o) == ByteAt(s, j, o);
    }
  }

  lemma ExtendsNothing(s: Fs, i: nat, bn: nat)
    requires s.Shaped() && i in s.inodes
    ensures Extends(s, s, i, bn)
  {
  }

  lemma ExtendsOne(s: Fs, r: Fs, i: nat, bn: nat, k: nat, b: nat)
    requires SlotSet(s, r, i, k, b) && SameSizes(s, r) && OthersSame(s, r, i) && s.Slot(i, k) == 0
    requires k == Pos(bn) || (k == NDIRECT && bn >= NDIRECT)
    ensures Extends(s, r, i, bn)
  {
  }

  lemma ExtendsTwice(s: Fs, m: Fs, r: Fs, i: nat, bn: nat)
    requires Extends(s, m, i, bn) && Extends(m, r, i, bn)
    ensures Extends(s, r, i, bn)
  {
  }

  lemma ExtendsSameSlots(s: Fs, m: Fs, r: Fs, i: nat, bn: nat)
    requires Extends(s, m, i, bn) && SameSlots(m, r) && r.inodes == m.inodes
    ensures Extends(s, r, i, bn)
  {
  }

  lemma WritingStep(s0: Fs, s1: Fs, s2: Fs, i: nat, off: nat, tot: nat, w: seq<Byte>, x: seq<Byte>, m: nat)
    requires Writing(s0, s1, i, off, tot, w) && |w| == tot && s2.Inv()
    requires Extends(s1, s2, i, Bn(off + tot)) && Spliced(s1, s2, i, off + tot, x)
    requires m > 0 ==> m <= BSIZE - At(off + tot) && off + tot < MAXFILE * BSIZE && s2.Slot(i, Pos(Bn(off + tot))) != 0
    ensures Writing(s0, s2, i, off, tot + m, w + x)
  {
    hide Spliced, Fs.Inv, Fs.Slot;
    SplicedTwice(s0, s1, s2, i, off, w, x);
    forall bn | tot + m > 0 && Bn(off) <= bn < MAXFILE && bn * BSIZE < off + tot + m ensures s2.Slot(i, Pos(bn)) != 0 {
      if tot > 0 && bn * BSIZE < off + tot { assert s1.Slot(i, Pos(bn)) != 0; } else { assert bn == Bn(off + tot); }
    }
  }

  lemma MoreBlocks(s0: Fs, s1: Fs, s2: Fs, i: nat, lo: nat, bn: nat, l0: set<nat>, l1: set<nat>, l2: set<nat>)
    requires Extends(s1, s2, i, bn) && lo <= bn < MAXFILE
    requires Allocs(s0, s1, l0, l1, WriteBlocks(s1, i, lo, bn)) && Allocs(s1, s2, l1, l2, BmapBlocks(s2, i, bn))
    ensures s2.Shaped() && i in s2.inodes && Allocs(s0, s2, l0, l2, WriteBlocks(s2, i, lo, bn + 1))
  {
    hide Allocs;
    forall x | x in WriteBlocks(s1, i, lo, bn) && x != 0 ensures x in WriteBlocks(s2, i, lo, bn + 1) {
      if x == s1.Slot(i, NDIRECT) {
        assert s2.Slot(i, NDIRECT) == x;
      } else {
        var b :| lo <= b < bn && b < MAXFILE && x == s1.Slot(i, Pos(b));
        assert s2.Slot(i, Pos(b)) == x;
      }
    }
    AllocsThen(s0, s1, s2, l0, l1, l2, WriteBlocks(s1, i, lo, bn), BmapBlocks(s2, i, bn),
               WriteBlocks(s2, i, lo, bn + 1));
  }

  lemma FirstChunk(off: nat, n: nat)
    ensures Bn(off) <= BnUp(off + n)
  {
  }

  /** A chunk ends with its block or with the data, and stays inside the largest file. */
  lemma NextChunk(off: nat, tot: nat, n: nat)
    requires tot < n && off + n <= MAXFILE * BSIZE
    ensures var m := if n - tot < BSIZE - At(off + tot) then n - tot else BSIZE - At(off + tot);
            && 0 < m && tot + m <= n && At(off + tot) + m <= BSIZE
            && (tot + m < n ==> Bn(off + tot + m) == Bn(off + tot) + 1)
    ensures Bn(off + tot) < BnUp(off + n) && Bn(off + tot) < MAXFILE
  {
  }

  lemma WritingStart(s: Fs, i: nat, off: nat, lo: nat, l: set<nat>)
    requires s.Inv() && i in s.inodes
    ensures Writing(s, s, i, off, 0, []) && Allocs(s, s, l, l, WriteBlocks(s, i, lo, lo))
  {
  }

  lemma WritingInv(s0: Fs, s: Fs, i: nat, off: nat, tot: nat, w: seq<Byte>)
    requires Writing(s0, s, i, off, tot, w)
    ensures s.Inv() && s.g == s0.g
  {
  }

  lemma Resized(s: Fs, r: Fs, i: nat)
    requires s.Inv() && i in s.inodes && i in r.inodes
    requires r == s.(inodes := s.inodes[i := s.inodes[i].(size := r.inodes[i].size)])
    ensures r.Inv() && SameSlots(s, r) && SameBytes(s, r)
    ensures forall c :: 0 <= c < s.g.size ==> r.Used(c) == s.Used(c)
  {
    forall j, k | j in s.inodes && 0 <= k < SLOTS ensures r.Slot(j, k) == s.Slot(j, k) {
    }
    forall b | 0 <= b < s.g.size ensures r.Used(b) == s.Used(b) {
    }
    assert SameData(s, r) by {
      forall j, k | j in s.inodes && 0 <= k < SLOTS && k != NDIRECT && s.Slot(j, k) != 0
        ensures s.Slot(j, k) < s.g.size
      {
        assert s.InUse(s.Slot(j, k));
      }
    }
    SameSlotsSameBytes(s, r);
  }

  lemma WritingDone(s0: Fs, s: Fs, r: Fs, i: nat, off: nat, tot: nat, w: seq<Byte>)
    requires Writing(s0, s, i, off, tot, w) && i in r.inodes && off <= s0.inodes[i].size && off + tot <= MAXFILE * BSIZE
    requires r == s.(inodes := s.inodes[i := s.inodes[i].(size := r.inodes[i].size)])
    requires r.inodes[i].size == if off + tot > s0.inodes[i].size then off + tot else s0.inodes[i].size
    ensures r.Inv() && SameSlots(s, r) && Spliced(s0, r, i, off, w) && OthersSame(s0, r, i) && r.g == s0.g
    ensures (forall c :: 0 <= c < s.g.size ==> r.Used(c) == s.Used(c)) && (Full(s) ==> Full(r))
    ensures KeepsMapped(s0, r)
  {
    Resized(s, r, i);
    forall j, o | j in s0.inodes && 0 <= o < MAXFILE * BSIZE
      ensures ByteAt(r, j, o) == if j == i && off <= o < off + |w| then w[o - off] else ByteAt(s0, j, o)
    {
      assert ByteAt(r, j, o) == ByteAt(s, j, o);
    }
    forall j | j in s0.inodes && Mapped(s0, j) ensures Mapped(r, j) {
      WritingMapped(s0, s, r, i, off, tot, w, j);
    }
  }

  lemma WritingMapped(s0: Fs, s: Fs, r: Fs, i: nat, off: nat, tot: nat, w: seq<Byte>, j: nat)
    requires Writing(s0, s, i, off, tot, w) && off <= s0.inodes[i].size && off + tot <= MAXFILE * BSIZE
    requires SameSlots(s, r) && j in s0.inodes && Mapped(s0, j)
    requires j != i ==> r.inodes[j].size == s0.inodes[j].size
    requires r.inodes[i].size == if off + tot > s0.inodes[i].size then off + tot else s0.inodes[i].size
    ensures Mapped(r, j)
  {
    forall bn | 0 <= bn < MAXFILE && bn * BSIZE < r.inodes[j].size ensures r.Slot(j, Pos(bn)) != 0 {
      if bn * BSIZE < s0.inodes[j].size { assert s0.Slot(j, Pos(bn)) != 0; }
    }
  }

  lemma BlocksWiden(s0: Fs, s: Fs, i: nat, lo: nat, hi: nat, end: nat, l0: set<nat>, l: set<nat>)
    requires s.Shaped() && i in s.inodes && hi <= end && Allocs(s0, s, l0, l, WriteBlocks(s, i, lo, hi))
    ensures Allocs(s0, s, l0, l, WriteBlocks(s, i, lo, end))
  {
    hide Allocs;
    AllocsNothing(s, l, {});
    AllocsThen(s0, s, s, l0, l, l, WriteBlocks(s, i, lo, hi), {}, WriteBlocks(s, i, lo, end));
  }

  lemma MappedShaped(s: Fs, i: nat)
    requires s.Inv() && i in s.inodes && Mapped(s, i)
    ensures s.Shaped() && s.inodes[i].size <= MAXFILE * BSIZE
  {
  }

  lemma ReadBlock(s: Fs, i: nat, o: nat)
    requires s.Inv() && i in s.inodes && Mapped(s, i) && o < s.inodes[i].size
    ensures s.inodes[i].size <= MAXFILE * BSIZE && Bn(o) < MAXFILE && s.Slot(i, Pos(Bn(o))) != 0
    ensures s.Slot(i, Pos(Bn(o))) < s.g.size
  {
    assert Bn(o) * BSIZE <= o;
    assert s.Slot(i, Pos(Bn(o))) != 0;
    assert s.InUse(s.Slot(i, Pos(Bn(o))));
  }

  lemma ReadBytes(s: Fs, i: nat, o: nat, m: nat)
    requires s.Shaped() && i in s.inodes && o + m <= MAXFILE * BSIZE && At(o) + m <= BSIZE && Bn(o) < MAXFILE
    requires 0 < s.Slot(i, Pos(Bn(o))) < s.g.size
    ensures forall x :: o <= x < o + m ==> ByteAt(s, i, x) == s.blocks[s.Slot(i, Pos(Bn(o)))][x - o + At(o)]
  {
    forall x | o <= x < o + m ensures ByteAt(s, i, x) == s.blocks[s.Slot(i, Pos(Bn(o)))][x - o + At(o)] {
      assert x / BSIZE == Bn(o) && x % BSIZE == x - o + At(o);
    }
  }

  lemma TruncateOthers(s0: Fs, s: Fs, i: nat, n: nat)
    requires Truncating(s0, s, i, n)
    ensures s.Shaped() && s0.Shaped() && s.g == s0.g && s.inodes.Keys == s0.inodes.Keys && i in s.inodes
    ensures OthersSame(s0, s, i)
  {
  }

  lemma TruncatedMapped(s0: Fs, s: Fs, i: nat)
    requires Truncating(s0, s, i, SLOTS) && s.inodes[i].size == 0
    ensures KeepsMapped(s0, s) && Mapped(s, i)
  {
    forall j | j in s0.inodes && j != i && Mapped(s0, j) ensures Mapped(s, j) {
      if s0.inodes[j].addrs[NDIRECT] != 0 { IndirectInUse(s0, j); }
      forall bn | 0 <= bn < MAXFILE && bn * BSIZE < s.inodes[j].size ensures s.Slot(j, Pos(bn)) != 0 {
        assert s0.Slot(j, Pos(bn)) != 0;
      }
    }
  }

  lemma TruncatedAccounted(s0: Fs, s: Fs, i: nat)
    requires Truncating(s0, s, i, SLOTS)
    requires forall c :: 0 <= c < s.g.size ==> s.Used(c) == (s0.Used(c) && !Has(s0, i, c))
    ensures KeepsAccounted(s0, s)
  {
    hide Holds, Left, Fs.Used;
    forall b | Accounted(s0) && s.InUse(b) ensures s.Owned(b) {
      assert s0.InUse(b);
      var j, k :| j in s0.inodes && 0 <= k < SLOTS && s0.Slot(j, k) == b;
      assert j != i;
      if s0.inodes[j].addrs[NDIRECT] != 0 { IndirectInUse(s0, j); }
      assert s.Slot(j, k) == b;
    }
  }

  lemma SlotIndirect(s: Fs, i: nat)
    requires s.Shaped() && i in s.inodes
    ensures s.Slot(i, NDIRECT) == s.inodes[i].addrs[NDIRECT]
  {
  }

  lemma PrefixJoin(src: seq<Byte>, i: nat, j: nat, x: seq<Byte>)
    requires i <= j <= |src| && x <= src[i..j]
    ensures src[..i] + x == src[..i + |x|]
  {
    assert x == src[i..j][..|x|] == src[i..i + |x|];
  }

  /** Inode `i` holds `w` from `off0` on and has grown to cover the bytes up to `off`; nothing else
      of any file has changed. */
  ghost predicate Wrote(s0: Fs, s: Fs, i: nat, off0: nat, off: nat, w: seq<Byte>) {
    && s0.Shaped() && s.Inv() && s.g == s0.g && s.inodes.Keys == s0.inodes.Keys && i in s.inodes && OthersSame(s0, s, i)
    && Spliced(s0, s, i, off0, w) && KeepsMapped(s0, s) && KeepsAccounted(s0, s)
    && off0 <= off <= off0 + |w| && off < 0x1_0000_0000
    && (off > off0 ==> off0 <= s0.inodes[i].size)
    && s.inodes[i].size == if off > off0 && off > s0.inodes[i].size then off else s0.inodes[i].size
  }

  lemma WroteNothing(s: Fs, i: nat, off: nat)
    requires s.Inv() && i in s.inodes && off < 0x1_0000_0000
    ensures Wrote(s, s, i, off, off, [])
  {
  }

  lemma WroteInv(s0: Fs, s: Fs, i: nat, off0: nat, off: nat, w: seq<Byte>)
    requires Wrote(s0, s, i, off0, off, w)
    ensures s0.Shaped() && s.Inv() && s.g == s0.g && i in s0.inodes && i in s.inodes && off < 0x1_0000_0000
    ensures off > s.inodes[i].size ==> off0 > s0.inodes[i].size
  {
  }

  lemma WroteStep(s0: Fs, s1: Fs, s2: Fs, i: nat, off0: nat, off: nat, w: seq<Byte>, x: seq<Byte>, r: nat)
    requires Wrote(s0, s1, i, off0, off, w) && off == off0 + |w| && r <= |x|
    requires s2.Inv() && s2.g == s1.g && s2.inodes.Keys == s1.inodes.Keys && OthersSame(s1, s2, i)
    requires Spliced(s1, s2, i, off, x)
    requires off <= s1.inodes[i].size && off + r <= MAXFILE * BSIZE
    requires s2.inodes[i].size == if off + r > s1.inodes[i].size then off + r else s1.inodes[i].size
    requires KeepsMapped(s1, s2) && KeepsAccounted(s1, s2)
    ensures Wrote(s0, s2, i, off0, off + r, w + x)
  {
    hide Fs.Inv, Mapped, Accounted, Fs.Slot, Spliced;
    SplicedTwice(s0, s1, s2, i, off0, w, x);
  }

  lemma SplicedTwice(s0: Fs, s1: Fs, s2: Fs, i: nat, off: nat, w: seq<Byte>, x: seq<Byte>)
    requires Spliced(s0, s1, i, off, w) && Spliced(s1, s2, i, off + |w|, x)
    ensures Spliced(s0, s2, i, off, w + x)
  {
    forall j, o | j in s0.inodes && 0 <= o < MAXFILE * BSIZE
      ensures ByteAt(s2, j, o) == if j == i && off <= o < off + |w + x| then (w + x)[o - off] else ByteAt(s0, j, o)
    {
      assert ByteAt(s1, j, o) == if j == i && off <= o < off + |w| then w[o - off] else ByteAt(s0, j, o);
    }
  }

  // Counting logged blocks

  ghost function Range(lo: nat, n: nat): (r: set<nat>)
    ensures |r| == n && forall x :: x in r <==> lo <= x < lo + n
  {
    if n == 0 then {} else Range(lo, n - 1) + {lo + n - 1}
  }

  ghost function DataBlocks(s: Fs, i: nat, lo: nat, n: nat): (r: set<nat>)
    requires s.Shaped() && i in s.inodes
    ensures |r| <= n
    ensures forall bn :: lo <= bn < lo + n && bn < MAXFILE ==> s.Slot(i, Pos(bn)) in r
  {
    if n == 0 then {}
    else if lo + n - 1 < MAXFILE then DataBlocks(s, i, lo, n - 1) + {s.Slot(i, Pos(lo + n - 1))}
    else DataBlocks(s, i, lo, n - 1)
  }

  lemma {:induction false} MapBlocksFew(g: Super, cs: set<nat>)
    ensures |MapBlocks(g, cs)| <= |cs|
  {
    if cs != {} {
      var c :| c in cs;
      MapBlocksFew(g, cs - {c});
      assert MapBlocks(g, cs) == MapBlocks(g, cs - {c}) + {g.Bblock(c)};
    }
  }

  /** The most that one transaction of filewrite logs, for a file whose blocks are mapped. */
  function ChunkLogs(g: Super): nat {
    if 6 + FreeMapBlocks(g) < LogDisk.MAXOPBLOCKS then 6 + FreeMapBlocks(g) else LogDisk.MAXOPBLOCKS
  }

  /** A chunk spans at most four blocks, and at most three from the first that starts in it. */
  lemma ChunkSpan(off: nat, n: nat)
    requires n <= MAXCHUNK
    ensures BnUp(off + n) <= Bn(off) + 4 && BnUp(off + n) <= BnUp(off) + 3 && Bn(off) * BSIZE <= off
    ensures BnUp(off) > Bn(off) ==> BnUp(off) == Bn(off) + 1 && Bn(off) * BSIZE < off
  {
  }

  /** The block that a chunk starts inside of was mapped. */
  lemma NotNew(s0: Fs, s: Fs, i: nat, off: nat, bn: nat)
    requires s0.Inv() && SlotsKept(s0, s) && i in s0.inodes && Mapped(s0, i) && off <= s0.inodes[i].size
    requires Bn(off) <= bn < BnUp(off) && bn < MAXFILE && forall c :: 0 <= c < s.g.size && s0.Used(c) ==> s.Used(c)
    ensures s.Slot(i, Pos(bn)) !in Changed(s0, s)
  {
    hide Fs.Slot, Fs.Used;
    ChunkSpan(off, 0);
    assert s0.Slot(i, Pos(bn)) != 0;
    assert s0.InUse(s0.Slot(i, Pos(bn)));
  }

  /** A write marks the indirect block and data blocks, those that were mapped excepted. */
  lemma ChangedFew(s0: Fs, s: Fs, i: nat, off: nat, n: nat, l: set<nat>)
    requires s0.Inv() && i in s0.inodes && n <= MAXCHUNK && off <= s0.inodes[i].size
    requires WriteCost(s0, s, i, Bn(off), BnUp(off + n), {}, l)
    ensures |Changed(s0, s)| <= 5 && (Mapped(s0, i) ==> |Changed(s0, s)| <= 4)
  {
    hide Fs.Slot, Fs.Used, Fs.Inv, Logs, SlotsKept, Mapped, Bn, BnUp;
    ChunkSpan(off, n);
    ChangedIn(s0, s, i, Bn(off), BnUp(off + n), Bn(off), 4);
    if Mapped(s0, i) {
      forall bn | Bn(off) <= bn < BnUp(off) && bn < MAXFILE ensures s.Slot(i, Pos(bn)) !in Changed(s0, s) {
        NotNew(s0, s, i, off, bn);
      }
      ChangedIn(s0, s, i, Bn(off), BnUp(off + n), BnUp(off), 3);
    }
  }

  lemma ChangedIn(s0: Fs, s: Fs, i: nat, lo: nat, hi: nat, first: nat, n: nat)
    requires s.Shaped() && i in s.inodes && Marks(s0, s, WriteBlocks(s, i, lo, hi)) && hi <= first + n
    requires forall bn :: lo <= bn < first && bn < MAXFILE ==> s.Slot(i, Pos(bn)) !in Changed(s0, s)
    ensures |Changed(s0, s)| <= 1 + n
  {
    hide Fs.Slot, Fs.Used;
    var most := {s.Slot(i, NDIRECT)} + DataBlocks(s, i, first, n);
    assert Changed(s0, s) <= most;
    SubsetCard(Changed(s0, s), most);
  }

  /** What one writei of at most MAXCHUNK bytes logs. */
  lemma LogBound(s0: Fs, s: Fs, i: nat, off: nat, n: nat, logged: set<nat>)
    requires s0.Inv() && i in s0.inodes && n <= MAXCHUNK && off <= s0.inodes[i].size
    requires WriteCost(s0, s, i, Bn(off), BnUp(off + n), {}, logged)
    ensures |logged| <= 6 + FreeMapBlocks(s.g) && |logged| <= LogDisk.MAXOPBLOCKS + 1
    ensures Mapped(s0, i) ==> |logged| <= ChunkLogs(s.g)
  {
    hide Fs.Slot, Fs.Used, Fs.Inv, Mapped, Bn, BnUp;
    ChunkSpan(off, n);
    ChangedFew(s0, s, i, off, n, logged);
    var maps := MapBlocks(s.g, Changed(s0, s));
    MapBlocksFew(s.g, Changed(s0, s));
    var data := DataBlocks(s, i, Bn(off), 4);
    var range := Range(s.g.bmapstart, FreeMapBlocks(s.g));
    assert maps <= range;
    SubsetCard(maps, range);
    var most := {s.g.Iblock(i)} + {s.Slot(i, NDIRECT)} + data + maps;
    assert logged <= most;
    SubsetCard(logged, most);
  }

  /** With a log of the size that mkfs makes, transactions that log no more than filewrite's do
      cannot run out of log, in any interleaving, exactly if the free map has at most three blocks. */
  lemma ChunksFitLog(g: Super, nlog: nat)
    requires nlog >= LogDisk.LOGSIZE
    ensures LogSpace.PanicReachable(ChunkLogs(g), nlog) <==> FreeMapBlocks(g) > 3
  {
    LogSpace.PanicCondition(ChunkLogs(g), nlog);
  }

  lemma FreeSound(s: Fs, b: nat)
    requires s.Inv() && s.g.datastart <= b < s.g.size && s.Used(b) && !s.Owned(b)
    ensures Mark(s, b, false).Inv() && SameBytes(s, Mark(s, b, false))
  {
    var r := Mark(s, b, false);
    FreeKeeps(s, {b}, b);
    forall j, k | j in s.inodes && 0 <= k < SLOTS && s.Slot(j, k) != 0
      ensures s.g.datastart <= s.Slot(j, k) < s.g.size
    {
      assert s.InUse(s.Slot(j, k));
    }
    forall j | j in s.inodes && s.inodes[j].addrs[NDIRECT] != 0
      ensures s.inodes[j].addrs[NDIRECT] < s.g.size
      ensures r.blocks[s.inodes[j].addrs[NDIRECT]] == s.blocks[s.inodes[j].addrs[NDIRECT]]
    {
      IndirectInUse(s, j);
    }
    SlotsUnrelated(s, r);
    SameSlotsSameBytes(s, r);
  }
}
