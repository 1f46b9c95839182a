/** kernel/log.c run by one thread at a time: the write-ahead commit and its recovery,
    with every disk write recorded so that a crash can be placed between any two of them. */
module Log {
  import opened Basics
  import opened Blocks
  import opened LogDisk

  class Log {
    const c: Layout
    var disk: Disk
    /** Cached contents of the blocks that are logged, and so pinned in the buffer cache. */
    var pinned: map<nat, Block>
    /** `log.lh.block[..log.lh.n]` */
    var lh: seq<nat>
    var outstanding: nat
    /** The disk after each bwrite, oldest first. */
    ghost var trace: seq<Disk>

    ghost predicate Valid()
      reads this
    {
      && c.Valid() && |disk| == c.size
      && GoodHead(c, lh)
      && pinned.Keys == Elems(lh)
    }

    /** The file system that readers see: the cached contents of logged blocks hide the disk's. */
    ghost function Current(): (v: map<nat, Block>)
      requires |disk| == c.size
      reads this
    {
      Overlay(c, disk, pinned)
    }

    ghost function OnDisk(): (v: map<nat, Block>)
      requires |disk| == c.size
      reads this
    {
      HomeBlocks(c, disk)
    }

    method Bwrite(b: nat, data: Block)
      requires b < |disk|
      modifies `disk, `trace
      ensures disk == old(disk)[b := data]
      ensures trace == old(trace) + [disk]
    {
      disk := disk[b := data];
      trace := trace + [disk];
    }

    method Bunpin(b: nat)
      modifies `pinned
      ensures pinned == old(pinned) - {b}
    {
      pinned := pinned - {b};
    }

    method WriteHead()
      requires c.Valid() && |disk| == c.size && GoodHead(c, lh)
      modifies `disk, `trace
      ensures disk == WithHead(c, old(disk), lh)
      ensures trace == old(trace) + [disk]
    {
      hide PutWord, GetWord;
      var hb := PutWord(disk[c.start], 0, |lh|);
      for i := 0 to |lh|
        invariant hb == PutHead(disk[c.start], lh, i)
      {
        hb := PutWord(hb, 1 + i, lh[i]);
      }
      Bwrite(c.start, hb);
    }

    method ReadHead()
      requires GoodDisk(c, disk)
      modifies `lh
      ensures lh == Head(disk[c.start])
    {
      var hb := disk[c.start];
      lh := [];
      for i := 0 to GetWord(hb, 0)
        invariant lh == HeadPrefix(hb, i)
      {
        lh := lh + [GetWord(hb, 1 + i)];
      }
    }

    /** log_write by a caller that has changed its buffer of block `b` to `data`: readers see the
        change, the disk does not, and a block already logged takes no more room. */
    method LogWrite(b: nat, data: Block) returns (panics: bool)
      requires Valid() && c.Home(b)
      modifies `pinned, `lh
      ensures panics <==> |old(lh)| >= LOGSIZE || |old(lh)| >= c.nlog - 1 || outstanding < 1
      ensures panics ==> pinned == old(pinned) && lh == old(lh)
      ensures !panics ==> Valid() && Current() == old(Current())[b := data]
      ensures !panics ==> lh == if b in old(lh) then old(lh) else old(lh) + [b]
    {
      if |lh| >= LOGSIZE || |lh| >= c.nlog - 1 || outstanding < 1 {
        return true;
      }
      hide GoodHead, Overlay;
      OverlayMore(c, disk, pinned, b, data);
      var i := 0;
      while i < |lh| && lh[i] != b
        invariant 0 <= i <= |lh| && b !in lh[..i]
      {
        i := i + 1;
      }
      if i == |lh| {
        assert lh[..i] == lh;
        LoggedOneMore(c, lh, b);
        lh := lh + [b];
      }
      pinned := pinned[b := data];
      return false;
    }

    /** Copy the pinned contents of every logged block to the log. Nothing outside the log's
        data blocks changes, in any of the images `w` on the way. */
    method WriteLog()
      requires Valid()
      modifies `disk, `trace
      ensures OutsideLog(c, |lh|, old(disk), disk)
      ensures forall i :: 0 <= i < |lh| ==> disk[c.start + 1 + i] == pinned[lh[i]]
      ensures |trace| == |old(trace)| + |lh| && old(trace) <= trace
      ensures forall i :: |old(trace)| <= i < |trace| ==> OutsideLog(c, |lh|, old(disk), trace[i])
    {
      for tail := 0 to |lh|
        invariant OutsideLog(c, |lh|, old(disk), disk)
        invariant forall i :: 0 <= i < tail ==> disk[c.Slot(i)] == pinned[lh[i]]
        invariant |trace| == |old(trace)| + tail && old(trace) <= trace
        invariant forall i :: |old(trace)| <= i < |trace| ==> OutsideLog(c, |lh|, old(disk), trace[i])
      {
        Bwrite(c.Slot(tail), pinned[lh[tail]]);
      }
    }

    /** Copy committed blocks home, unpinning each as its copy is written. A crash on the way
        leaves the meaning of the disk alone. */
    method InstallTrans(recovering: bool, ghost v: map<nat, Block>)
      requires Means(c, disk, v) && Head(disk[c.start]) == lh
      requires pinned.Keys == if recovering then {} else Elems(lh)
      modifies `disk, `trace, `pinned
      ensures disk == Install(c, old(disk), lh, |lh|)
      ensures pinned == map[]
      ensures |trace| == |old(trace)| + |lh| && old(trace) <= trace
      ensures MeansFrom(c, trace, |old(trace)|, |trace|, v)
    {
      hide Head, Recovered;
      ghost var d0, l := disk, lh;
      for tail := 0 to |lh|
        invariant disk == Install(c, d0, l, tail)
        invariant pinned.Keys == if recovering then {} else Elems(l[tail..])
        invariant |trace| == |old(trace)| + tail && old(trace) <= trace
        invariant MeansFrom(c, trace, |old(trace)|, |trace|, v)
      {
        Bwrite(lh[tail], disk[c.Slot(tail)]);
        InstallKeepsMeaning(c, d0, tail + 1, v);
        if !recovering {
          Bunpin(lh[tail]);
          UnpinFirst(l[tail..]);
        }
      }
    }

    /** From the header write to the erased log: every image means the new file system. */
    method WriteHeadAndInstall(ghost v: map<nat, Block>)
      requires Valid() && Logged(c, disk, lh, v)
      modifies `disk, `trace, `pinned, `lh
      ensures lh == [] && pinned == map[] && GoodDisk(c, disk) && Head(disk[c.start]) == []
      ensures OnDisk() == v
      ensures |trace| == |old(trace)| + old(|lh|) + 2 && old(trace) <= trace
      ensures MeansFrom(c, trace, |old(trace)|, |trace|, v)
    {
      hide Head, PutHead, Recovered, Install;
      HeaderCommits(c, disk, lh, v);
      WithHeadNames(c, disk, lh);
      WriteHead();
      ghost var committed := disk;
      InstallTrans(false, v);
      ClearKeepsMeaning(c, committed, v);
      lh := [];
      WriteHead();
    }

    /** Commit is atomic: there is one write before which every crash image recovers to the old
        file system and from which on every crash image recovers to the new one. */
    method Commit()
      requires Valid() && GoodDisk(c, disk) && Head(disk[c.start]) == []
      modifies `disk, `trace, `pinned, `lh
      ensures Valid() && lh == []
      ensures GoodDisk(c, disk) && Head(disk[c.start]) == []
      ensures OnDisk() == old(Current())
      ensures old(trace) <= trace
      ensures |trace| == |old(trace)| + if old(lh) == [] then 0 else 2 * |old(lh)| + 2
      ensures old(lh) != [] ==> MeansFrom(c, trace, |old(trace)|, |old(trace)| + |old(lh)|, old(OnDisk()))
      ensures old(lh) != [] ==> MeansFrom(c, trace, |old(trace)| + |old(lh)|, |trace|, old(Current()))
    {
      hide Head, PutHead, Recovered, Install, Means, MeansFrom, OutsideLog, Logged, HomeBlocks, Overlay, GoodHead;
      HeadFits(c, lh);
      ghost var before, after := OnDisk(), Current();
      if |lh| > 0 {
        WriteLog();
        ghost var logged := trace;
        LogImages(c, |lh|, old(disk), logged, |old(trace)|, |logged|);
        CommitReady(c, old(disk), disk, lh, pinned);
        WriteHeadAndInstall(after);
        MeansPrefix(c, logged, trace, |old(trace)|, |logged|, before);
      } else {
        NothingPinned(c, disk, pinned);
      }
    }

    /** Recovery reaches the file system the crash image meant, and so does every image it
        leaves if it crashes itself. */
    method RecoverFromLog(ghost v: map<nat, Block>)
      requires Means(c, disk, v) && v.Keys == OnDisk().Keys && pinned == map[]
      modifies `disk, `trace, `pinned, `lh
      ensures Valid() && lh == []
      ensures GoodDisk(c, disk) && Head(disk[c.start]) == []
      ensures OnDisk() == v
      ensures old(trace) <= trace
      ensures MeansFrom(c, trace, |old(trace)|, |trace|, v)
    {
      hide Head, PutHead, Recovered, Install;
      ghost var d0 := disk;
      ReadHead();
      InstallTrans(true, v);
      lh := [];
      ClearKeepsMeaning(c, d0, v);
      WriteHead();
    }
  }

  /** The disks agree but for the first `n` data blocks of the log. */
  ghost predicate OutsideLog(c: Layout, n: nat, d: Disk, e: Disk) {
    && |d| == |e|
    && forall b :: 0 <= b < |d| && !(c.Slot(0) <= b < c.Slot(n)) ==> e[b] == d[b]
  }

  lemma LoggedOneMore(c: Layout, lh: seq<nat>, b: nat)
    requires GoodHead(c, lh) && c.Home(b) && b !in lh && |lh| < LOGSIZE && |lh| < c.nlog - 1
    ensures GoodHead(c, lh + [b]) && Elems(lh + [b]) == Elems(lh) + {b}
  {
  }

  lemma UnpinFirst(lh: seq<nat>)
    requires lh != [] && forall i, j :: 0 <= i < j < |lh| ==> lh[i] != lh[j]
    ensures Elems(lh) - {lh[0]} == Elems(lh[1..])
  {
    assert lh == [lh[0]] + lh[1..];
  }

  /** The home blocks of a disk. */
  ghost function HomeBlocks(c: Layout, d: Disk): (v: map<nat, Block>)
    requires |d| == c.size
  {
    map b: nat | b < c.size && c.Home(b) :: d[b]
  }

  /** The same with some blocks hidden by cached contents. */
  ghost function Overlay(c: Layout, d: Disk, pinned: map<nat, Block>): (v: map<nat, Block>)
    requires |d| == c.size
  {
    map b: nat | b < c.size && c.Home(b) :: if b in pinned then pinned[b] else d[b]
  }

  lemma OverlayMore(c: Layout, d: Disk, pinned: map<nat, Block>, b: nat, data: Block)
    requires |d| == c.size && c.Valid() && c.Home(b)
    ensures Overlay(c, d, pinned[b := data]) == Overlay(c, d, pinned)[b := data]
  {
  }

  lemma NothingPinned(c: Layout, d: Disk, pinned: map<nat, Block>)
    requires |d| == c.size && pinned.Keys == {}
    ensures Overlay(c, d, pinned) == HomeBlocks(c, d)
  {
  }

  lemma HeadFits(c: Layout, lh: seq<nat>)
    requires c.Valid() && GoodHead(c, lh)
    ensures |lh| <= c.nlog - 1 && (lh == [] ==> Elems(lh) == {})
  {
  }

  /** Images that differ from a disk with an empty log in log blocks only mean what it means. */
  lemma LogImages(c: Layout, n: nat, d: Disk, images: seq<Disk>, lo: nat, hi: nat)
    requires GoodDisk(c, d) && Head(d[c.start]) == [] && n <= c.nlog - 1
    requires hi <= |images| && forall i :: lo <= i < hi ==> OutsideLog(c, n, d, images[i])
    ensures MeansFrom(c, images, lo, hi, HomeBlocks(c, d))
  {
    forall i | lo <= i < hi ensures Means(c, images[i], HomeBlocks(c, d)) {
      EmptyLogMeans(c, images[i], HomeBlocks(c, d));
    }
  }

  /** With the log written, disk and log together hold what readers see. */
  lemma CommitReady(c: Layout, d: Disk, e: Disk, lh: seq<nat>, pinned: map<nat, Block>)
    requires c.Valid() && |d| == c.size && GoodHead(c, lh) && pinned.Keys == Elems(lh) && OutsideLog(c, |lh|, d, e)
    requires forall i :: 0 <= i < |lh| ==> c.Slot(i) < |e| && lh[i] in pinned && e[c.Slot(i)] == pinned[lh[i]]
    ensures Logged(c, e, lh, Overlay(c, d, pinned))
  {
  }

  /** The log holds what the file system `v` has in the blocks `lh`, and the home blocks the rest. */
  ghost predicate Logged(c: Layout, d: Disk, lh: seq<nat>, v: map<nat, Block>)
    requires c.Valid() && |lh| <= c.nlog - 1
  {
    && |d| == c.size && v.Keys == HomeBlocks(c, d).Keys
    && (forall i :: 0 <= i < |lh| ==> lh[i] in v && d[c.Slot(i)] == v[lh[i]])
    && (forall b: nat :: c.Home(b) ==> b in v && (b !in lh ==> d[b] == v[b]))
  }

  lemma MeansPrefix(c: Layout, a: seq<Disk>, b: seq<Disk>, lo: nat, hi: nat, v: map<nat, Block>)
    requires a <= b && MeansFrom(c, a, lo, hi, v)
    ensures MeansFrom(c, b, lo, hi, v)
  {
  }
}
