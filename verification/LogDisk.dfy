/** The on-disk redo log of kernel/log.c: its header block, what installing it does
    to the disk, and what a disk means once recovery has run on it. */
module LogDisk {
  import opened Blocks

  const MAXOPBLOCKS := 10
  const LOGSIZE := 3 * MAXOPBLOCKS
  const NBUF := 3 * MAXOPBLOCKS

  type Disk = seq<Block>

  /** Where the superblock puts the log: its header at `start`, its data blocks after it. */
  datatype Layout = Layout(size: nat, start: nat, nlog: nat) {
    ghost predicate Valid() {
      1 <= nlog && start + nlog <= size < 0x1_0000_0000
    }

    predicate Home(b: nat) {
      b < size && !(start <= b < start + nlog)
    }

    function Slot(k: nat): nat {
      start + 1 + k
    }
  }

  /** A header that recovery may be asked to install: the blocks it names are distinct,
      lie outside the log, and have a log block each. */
  ghost predicate GoodHead(c: Layout, lh: seq<nat>) {
    && |lh| <= LOGSIZE
    && |lh| <= c.nlog - 1
    && (forall i :: 0 <= i < |lh| ==> c.Home(lh[i]))
    && (forall i, j :: 0 <= i < j < |lh| ==> lh[i] != lh[j])
  }

  /** The first `k` block numbers in a header block. */
  function HeadPrefix(b: Block, k: nat): (lh: seq<nat>)
    requires k <= LOGSIZE
    ensures |lh| == k
  {
    if k == 0 then [] else HeadPrefix(b, k - 1) + [GetWord(b, k)]
  }

  /** The block numbers a header block lists. */
  function Head(b: Block): (lh: seq<nat>) {
    if GetWord(b, 0) <= LOGSIZE then HeadPrefix(b, GetWord(b, 0)) else []
  }

  /** The header block after its count and the first `k` block numbers have been stored. */
  function PutHead(b: Block, lh: seq<nat>, k: nat): (r: Block)
    requires k <= |lh| <= LOGSIZE
    requires forall i :: 0 <= i < |lh| ==> lh[i] < 0x1_0000_0000
    ensures GetWord(r, 0) == |lh|
    ensures forall i :: 0 <= i < k ==> GetWord(r, 1 + i) == lh[i]
  {
    if k == 0 then PutWord(b, 0, |lh|) else PutWord(PutHead(b, lh, k - 1), k, lh[k - 1])
  }

  lemma {:induction false} HeadPrefixRoundTrip(b: Block, lh: seq<nat>, k: nat)
    requires k <= |lh| <= LOGSIZE
    requires forall i :: 0 <= i < k ==> GetWord(b, 1 + i) == lh[i]
    ensures HeadPrefix(b, k) == lh[..k]
  {
    if k > 0 {
      HeadPrefixRoundTrip(b, lh, k - 1);
      assert GetWord(b, 1 + (k - 1)) == lh[k - 1];
    }
  }

  /** write_head and read_head are inverse, whatever the header block held before. */
  lemma HeadRoundTrip(b: Block, lh: seq<nat>)
    requires |lh| <= LOGSIZE
    requires forall i :: 0 <= i < |lh| ==> lh[i] < 0x1_0000_0000
    ensures Head(PutHead(b, lh, |lh|)) == lh
  {
    HeadPrefixRoundTrip(PutHead(b, lh, |lh|), lh, |lh|);
  }

  ghost predicate GoodDisk(c: Layout, d: Disk) {
    && c.Valid()
    && |d| == c.size
    && GetWord(d[c.start], 0) <= LOGSIZE
    && GoodHead(c, Head(d[c.start]))
  }

  /** The disk after the first `k` log blocks have been copied home, in log order. */
  function Install(c: Layout, d: Disk, lh: seq<nat>, k: nat): (e: Disk)
    requires c.Valid() && |d| == c.size
    requires k <= |lh| <= c.nlog - 1
    requires forall i :: 0 <= i < |lh| ==> lh[i] < c.size
    ensures |e| == |d|
  {
    if k == 0 then d else
      var e := Install(c, d, lh, k - 1);
      e[lh[k - 1] := e[c.Slot(k - 1)]]
  }

  /** Contents of home block `b` once the log named by the header has been replayed. */
  function Recovered(c: Layout, d: Disk, b: nat): (r: Block)
    requires GoodDisk(c, d) && c.Home(b)
  {
    var lh := Head(d[c.start]);
    Install(c, d, lh, |lh|)[b]
  }

  /** Two disks mean the same file system if recovery takes both to the same home blocks. */
  ghost predicate SameMeaning(c: Layout, d: Disk, e: Disk) {
    && GoodDisk(c, d)
    && GoodDisk(c, e)
    && forall b: nat :: c.Home(b) ==> Recovered(c, d, b) == Recovered(c, e, b)
  }

  /** Installing in order is the same as a simultaneous copy of every log block. */
  lemma {:induction false} InstallAt(c: Layout, d: Disk, lh: seq<nat>, k: nat, b: nat)
    requires c.Valid() && |d| == c.size && GoodHead(c, lh) && k <= |lh| && b < c.size
    ensures forall i :: 0 <= i < k && lh[i] == b ==> Install(c, d, lh, k)[b] == d[c.Slot(i)]
    ensures b !in lh[..k] ==> Install(c, d, lh, k)[b] == d[b]
  {
    if k > 0 {
      InstallAt(c, d, lh, k - 1, b);
      InstallAt(c, d, lh, k - 1, c.Slot(k - 1));
      assert lh[..k] == lh[..k - 1] + [lh[k - 1]];
    }
  }

  lemma RecoveredAt(c: Layout, d: Disk, b: nat)
    requires GoodDisk(c, d) && c.Home(b)
    ensures forall i :: 0 <= i < |Head(d[c.start])| && Head(d[c.start])[i] == b ==> Recovered(c, d, b) == d[c.Slot(i)]
    ensures b !in Head(d[c.start]) ==> Recovered(c, d, b) == d[b]
  {
    var lh := Head(d[c.start]);
    InstallAt(c, d, lh, |lh|, b);
    assert lh[..|lh|] == lh;
  }

  /** Copying any one log block home is invisible to recovery. */
  lemma InstallOne(c: Layout, d: Disk, k: nat)
    requires GoodDisk(c, d) && k < |Head(d[c.start])|
    ensures SameMeaning(c, d, d[Head(d[c.start])[k] := d[c.Slot(k)]])
  {
    var lh := Head(d[c.start]);
    var e := d[lh[k] := d[c.Slot(k)]];
    assert e[c.start] == d[c.start];
    forall b: nat | c.Home(b) ensures Recovered(c, d, b) == Recovered(c, e, b) {
      RecoveredAt(c, d, b);
      RecoveredAt(c, e, b);
      if b in lh {
        var i :| 0 <= i < |lh| && lh[i] == b;
        assert e[c.Slot(i)] == d[c.Slot(i)];
      }
    }
  }

  /** `d` is a crash image of the file system whose home blocks are `v`. */
  ghost predicate Means(c: Layout, d: Disk, v: map<nat, Block>) {
    && GoodDisk(c, d)
    && forall b: nat :: c.Home(b) ==> b in v && Recovered(c, d, b) == v[b]
  }

  /** The images `lo` to `hi` of a run are crash images of the file system `v`. */
  ghost predicate MeansFrom(c: Layout, images: seq<Disk>, lo: nat, hi: nat, v: map<nat, Block>) {
    hi <= |images| && forall i :: lo <= i < hi ==> Means(c, images[i], v)
  }

  /** The header block that names `lh`. */
  function WithHead(c: Layout, d: Disk, lh: seq<nat>): (e: Disk)
    requires c.Valid() && |d| == c.size && GoodHead(c, lh)
  {
    d[c.start := PutHead(d[c.start], lh, |lh|)]
  }

  lemma WithHeadNames(c: Layout, d: Disk, lh: seq<nat>)
    requires c.Valid() && |d| == c.size && GoodHead(c, lh)
    ensures GoodDisk(c, WithHead(c, d, lh))
    ensures Head(WithHead(c, d, lh)[c.start]) == lh
  {
    HeadRoundTrip(d[c.start], lh);
  }

  /** While the header is empty, the log blocks mean nothing. */
  lemma EmptyLogMeans(c: Layout, d: Disk, v: map<nat, Block>)
    requires GoodDisk(c, d) && Head(d[c.start]) == []
    requires forall b: nat :: c.Home(b) ==> b in v && d[b] == v[b]
    ensures Means(c, d, v)
  {
  }

  /** The commit point: the header write switches the meaning from the home blocks to the
      home blocks overlaid with the log. */
  lemma HeaderCommits(c: Layout, d: Disk, lh: seq<nat>, v: map<nat, Block>)
    requires c.Valid() && |d| == c.size && GoodHead(c, lh)
    requires forall b: nat :: c.Home(b) ==> b in v
    requires forall i :: 0 <= i < |lh| ==> d[c.Slot(i)] == v[lh[i]]
    requires forall b: nat :: c.Home(b) && b !in lh ==> d[b] == v[b]
    ensures Means(c, WithHead(c, d, lh), v)
  {
    var e := WithHead(c, d, lh);
    WithHeadNames(c, d, lh);
    forall b: nat | c.Home(b) ensures Recovered(c, e, b) == v[b] {
      InstallAt(c, e, lh, |lh|, b);
      assert lh[..|lh|] == lh;
    }
  }

  /** Installing is invisible to a later recovery, wherever it stops. */
  lemma InstallKeepsMeaning(c: Layout, d: Disk, k: nat, v: map<nat, Block>)
    requires Means(c, d, v) && k <= |Head(d[c.start])|
    ensures Means(c, Install(c, d, Head(d[c.start]), k), v)
    ensures Install(c, d, Head(d[c.start]), k)[c.start] == d[c.start]
  {
    var lh := Head(d[c.start]);
    var e := Install(c, d, lh, k);
    InstallAt(c, d, lh, k, c.start);
    assert e[c.start] == d[c.start];
    forall b: nat | c.Home(b) ensures Recovered(c, e, b) == v[b] {
      InstallAt(c, d, lh, k, b);
      InstallAt(c, d, lh, |lh|, b);
      InstallAt(c, e, lh, |lh|, b);
      if i :| 0 <= i < |lh| && lh[i] == b {
        InstallAt(c, d, lh, k, c.Slot(i));
      } else {
        assert b !in lh[..k] && b !in lh[..|lh|];
      }
    }
  }

  /** Once every block is home, erasing the header is invisible too. */
  lemma ClearKeepsMeaning(c: Layout, d: Disk, v: map<nat, Block>)
    requires Means(c, d, v)
    ensures var lh := Head(d[c.start]);
            var e := Install(c, d, lh, |lh|);
            && Means(c, WithHead(c, e, []), v)
            && Head(WithHead(c, e, [])[c.start]) == []
            && forall b: nat :: c.Home(b) ==> WithHead(c, e, [])[b] == v[b]
  {
    var lh := Head(d[c.start]);
    var e := Install(c, d, lh, |lh|);
    WithHeadNames(c, e, []);
    forall b: nat | c.Home(b) ensures e[b] == v[b] {
      assert Recovered(c, d, b) == e[b];
    }
    EmptyLogMeans(c, WithHead(c, e, []), v);
  }
}
