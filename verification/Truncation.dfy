/** Why itrunc (kernel/fs.c) may free what it frees: seen without the inode being truncated, the
    file system is sound all along, and the blocks still to be freed are in use by no one. */
module Truncation {
  import opened Blocks
  import opened BlockMap

  /** The place that itrunc visits in step `n`: direct ones, indirect entries, indirect block. */
  function Place(n: nat): (k: nat)
    requires n < SLOTS
    ensures k < SLOTS
  {
    if n < NDIRECT then n else if n < MAXFILE then n + 1 else NDIRECT
  }

  /** The blocks of inode `i` that are still to be freed after `n` steps. */
  ghost function Left(s: Fs, i: nat, n: nat): (r: set<nat>)
    requires s.Shaped() && i in s.inodes
  {
    set m | n <= m < SLOTS && s.Slot(i, Place(m)) != 0 :: s.Slot(i, Place(m))
  }

  ghost predicate Has(s: Fs, i: nat, b: nat)
    requires s.Shaped() && i in s.inodes
  {
    b != 0 && exists k :: 0 <= k < SLOTS && s.Slot(i, k) == b
  }

  lemma LeftAll(s: Fs, i: nat, b: nat)
    requires s.Shaped() && i in s.inodes
    ensures b in Left(s, i, 0) <==> Has(s, i, b)
  {
    if Has(s, i, b) {
      var k :| 0 <= k < SLOTS && s.Slot(i, k) == b;
      assert Place(if k < NDIRECT then k else if k == NDIRECT then MAXFILE else k - 1) == k;
    }
  }

  lemma LeftStep(s: Fs, i: nat, n: nat)
    requires s.Inv() && i in s.inodes && n < SLOTS
    ensures var b := s.Slot(i, Place(n));
            && (b == 0 ==> Left(s, i, n + 1) == Left(s, i, n))
            && (b != 0 ==> b in Left(s, i, n) && Left(s, i, n + 1) == Left(s, i, n) - {b})
  {
    forall m | n < m < SLOTS && s.Slot(i, Place(m)) != 0 ensures s.Slot(i, Place(m)) != s.Slot(i, Place(n)) {
      assert Place(m) != Place(n);
    }
  }

  /** The file system as it will be: inode `i` empty. */
  ghost function Cut(s: Fs, i: nat): (r: Fs)
    requires s.Shaped() && i in s.inodes
    ensures r.Shaped() && r.g == s.g && r.blocks == s.blocks && r.inodes.Keys == s.inodes.Keys
    ensures (forall k :: 0 <= k < SLOTS ==> r.Slot(i, k) == 0)
    ensures forall j, k :: j in s.inodes && j != i && 0 <= k < SLOTS ==> r.Slot(j, k) == s.Slot(j, k)
    ensures forall c :: 0 <= c < s.g.size ==> r.Used(c) == s.Used(c)
  {
    s.(inodes := s.inodes[i := Inode(0, seq(NDIRECT + 1, _ => 0))])
  }

  /** A sound file system in which the blocks of `p` are marked though no inode has them. */
  ghost predicate Holds(s: Fs, p: set<nat>) {
    s.Inv() && forall b :: b in p ==> s.InUse(b) && !s.Owned(b)
  }

  lemma CutHolds(s: Fs, i: nat)
    requires s.Inv() && i in s.inodes
    ensures Holds(Cut(s, i), Left(s, i, 0))
  {
    var r := Cut(s, i);
    forall j, k | j in r.inodes && 0 <= k < SLOTS && r.Slot(j, k) != 0
      ensures j != i && r.Slot(j, k) == s.Slot(j, k)
    {
    }
    forall b | b in Left(s, i, 0) ensures r.InUse(b) && !r.Owned(b) {
      LeftAll(s, i, b);
      var l :| 0 <= l < SLOTS && s.Slot(i, l) == b;
      assert forall j, k :: j in s.inodes && 0 <= k < SLOTS && s.Slot(j, k) == s.Slot(i, l) ==> j == i;
    }
  }

  lemma FreeKeeps(s: Fs, p: set<nat>, b: nat)
    requires Holds(s, p) && b in p
    ensures Holds(Mark(s, b, false), p - {b})
  {
    var r := Mark(s, b, false);
    assert s.InUse(b) && !s.Owned(b);
    forall j | j in s.inodes && s.inodes[j].addrs[NDIRECT] != 0
      ensures s.inodes[j].addrs[NDIRECT] < s.g.size
      ensures r.blocks[s.inodes[j].addrs[NDIRECT]] == s.blocks[s.inodes[j].addrs[NDIRECT]]
    {
      IndirectInUse(s, j);
    }
    SlotsUnrelated(s, r);
    forall j, k | j in r.inodes && 0 <= k < SLOTS && r.Slot(j, k) != 0 ensures r.InUse(r.Slot(j, k)) {
      assert s.InUse(s.Slot(j, k));
      assert s.Slot(j, k) != b;
    }
    forall c | c in p - {b} ensures !r.Owned(c) {
      assert !s.Owned(c);
    }
  }

  /** After `n` steps of truncating inode `i` of `s0`: the other inodes and all data as in `s0`,
      and exactly the blocks of the first `n` places freed. */
  ghost predicate Truncating(s0: Fs, s: Fs, i: nat, n: nat) {
    && s0.Inv() && s.Shaped() && s.g == s0.g && s.inodes.Keys == s0.inodes.Keys && i in s.inodes
    && (forall j :: j in s.inodes && j != i ==> s.inodes[j] == s0.inodes[j])
    && Holds(Cut(s, i), Left(s0, i, n))
    && (forall b :: s.g.datastart <= b < s.g.size ==> s.blocks[b] == s0.blocks[b])
    && (forall c :: 0 <= c < s.g.size ==> s.Used(c) == (s0.Used(c) && (c !in Left(s0, i, 0) || c in Left(s0, i, n))))
  }

  lemma TruncateStart(s: Fs, i: nat)
    requires s.Inv() && i in s.inodes
    ensures Truncating(s, s, i, 0)
  {
    CutHolds(s, i);
  }

  /** The inode's own fields do not matter while it is being truncated. */
  lemma TruncateField(s0: Fs, s: Fs, i: nat, n: nat, x: Inode)
    requires Truncating(s0, s, i, n) && |x.addrs| == NDIRECT + 1
    ensures Truncating(s0, s.(inodes := s.inodes[i := x]), i, n)
  {
    var r := s.(inodes := s.inodes[i := x]);
    assert Cut(r, i).inodes == Cut(s, i).inodes;
    assert Cut(r, i) == Cut(s, i);
    assert forall c :: 0 <= c < s.g.size ==> r.Used(c) == Cut(r, i).Used(c) == s.Used(c);
  }

  lemma CutMark(s: Fs, i: nat, b: nat)
    requires s.Shaped() && i in s.inodes && b < s.g.size
    ensures Cut(Mark(s, b, false), i) == Mark(Cut(s, i), b, false)
  {
  }

  lemma LeftIn(s: Fs, i: nat, n: nat)
    requires s.Shaped() && i in s.inodes
    ensures Left(s, i, n) <= Left(s, i, 0)
  {
  }

  /** Each block is still marked when its turn to be freed comes. */
  lemma TruncateStep(s0: Fs, s: Fs, i: nat, n: nat)
    requires Truncating(s0, s, i, n) && n < SLOTS
    ensures var b := s0.Slot(i, Place(n));
            && (b == 0 ==> Truncating(s0, s, i, n + 1))
            && (b != 0 ==> s.InUse(b) && Truncating(s0, Mark(s, b, false), i, n + 1))
  {
    hide Left;
    LeftStep(s0, i, n);
    LeftIn(s0, i, n);
    var b := s0.Slot(i, Place(n));
    if b != 0 {
      CutMark(s, i, b);
      FreeKeeps(Cut(s, i), Left(s0, i, n), b);
    }
  }

  /** With no indirect block there are no entries to free. */
  lemma TruncateNoIndirect(s0: Fs, s: Fs, i: nat)
    requires Truncating(s0, s, i, NDIRECT) && s0.inodes[i].addrs[NDIRECT] == 0
    ensures Truncating(s0, s, i, SLOTS)
  {
    assert Left(s0, i, NDIRECT) == {} == Left(s0, i, SLOTS);
  }

  lemma TruncateDone(s0: Fs, s: Fs, i: nat)
    requires Truncating(s0, s, i, SLOTS) && s.inodes[i] == Inode(0, seq(NDIRECT + 1, _ => 0))
    ensures s.Inv() && (forall k :: 0 <= k < SLOTS ==> s.Slot(i, k) == 0)
    ensures forall c :: 0 <= c < s.g.size ==> s.Used(c) == (s0.Used(c) && !Has(s0, i, c))
    ensures forall j, o :: j in s.inodes && j != i && 0 <= o < MAXFILE * BSIZE ==> ByteAt(s, j, o) == ByteAt(s0, j, o)
  {
    assert Cut(s, i).inodes == s.inodes;
    assert Cut(s, i) == s;
    forall c | 0 <= c < s.g.size ensures s.Used(c) == (s0.Used(c) && !Has(s0, i, c)) {
      LeftAll(s0, i, c);
    }
    forall j, o | j in s.inodes && j != i && 0 <= o < MAXFILE * BSIZE ensures ByteAt(s, j, o) == ByteAt(s0, j, o) {
      if s0.inodes[j].addrs[NDIRECT] != 0 { IndirectInUse(s0, j); }
      var k := Pos(o / BSIZE);
      assert s.Slot(j, k) == s0.Slot(j, k);
      if s0.Slot(j, k) != 0 { assert s0.InUse(s0.Slot(j, k)); }
    }
  }
}
