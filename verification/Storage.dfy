/** The buffer cache and the log together, under every interleaving of processes and with a
    crash possible between any two steps (kernel/bio.c, kernel/log.c).

    A step is one critical section or one disk transfer. A caller's change to a buffer and
    the log_write that records it are one step, since the caller holds the buffer's lock
    from the one to the other. */
module Storage {
  import opened Basics
  import opened Blocks
  import opened LogDisk

  const ROOTDEV := 1

  type Proc = nat

  /** A `struct buf`. `waiters` have counted themselves in but not yet got the sleep lock;
      `leavers` have released it but not yet counted themselves out. */
  datatype Buf = Buf(dev: nat, blockno: nat, valid: bool, refcnt: nat, data: Block,
                     holder: Option<Proc>, waiters: set<Proc>, leavers: set<Proc>)

  /** How far process `who` is through commit() or recover_from_log(). */
  datatype Phase =
    | Idle
    | WritingLog(who: Proc, tail: nat)
    | Installing(who: Proc, tail: nat)
    | Erased(who: Proc)
    | Booting(who: Proc)
    | Replaying(who: Proc, tail: nat)

  datatype State = State(c: Layout, disk: Disk, bufs: seq<Buf>, lh: seq<nat>,
                         ops: set<Proc>, outstanding: nat, phase: Phase)

  datatype Step =
    | BgetHit(p: Proc, i: nat, b: nat)
    | BgetMiss(p: Proc, i: nat, b: nat)
    | Lock(p: Proc, i: nat)
    | Fill(p: Proc, i: nat)
    | Unlock(p: Proc, i: nat)
    | Drop(p: Proc, i: nat)
    | Begin(p: Proc)
    | Write(p: Proc, i: nat, d: Block)
    | End(p: Proc)
    | LogBlock(p: Proc, j: nat, i: nat)
    | CommitHead(p: Proc, j: nat)
    | InstallBlock(p: Proc, j: nat, i: nat)
    | EraseHead(p: Proc, j: nat)
    | Finish(p: Proc)
    | ReadHead(p: Proc, j: nat)
    | Crash(p: Proc)

  function FreeBuf(): (u: Buf) {
    Buf(0, 0, false, 0, ZeroBlock(), None, {}, {})
  }

  /** The cache as binit leaves it. */
  function FreeBufs(n: nat): (r: seq<Buf>)
    ensures |r| == n && forall i :: 0 <= i < n ==> r[i] == FreeBuf()
  {
    if n == 0 then [] else FreeBufs(n - 1) + [FreeBuf()]
  }

  predicate Caches(u: Buf, b: nat) {
    u.dev == ROOTDEV && u.blockno == b
  }

  /** Process `p` holds buffer `i` locked, with the contents of block `b` in it. */
  predicate Has(s: State, p: Proc, i: nat, b: nat) {
    i < |s.bufs| && s.bufs[i].holder == Some(p) && Caches(s.bufs[i], b) && s.bufs[i].valid
  }

  predicate Committing(s: State) {
    s.phase.WritingLog? || s.phase.Installing? || s.phase.Erased?
  }

  predicate Recovering(s: State) {
    s.phase.Booting? || s.phase.Replaying?
  }

  /** Until recovery is over only the process that runs it uses the cache. */
  predicate MayUse(s: State, p: Proc) {
    Recovering(s) ==> p == s.phase.who
  }

  predicate Uncached(s: State, b: nat) {
    forall k :: 0 <= k < |s.bufs| ==> !Caches(s.bufs[k], b)
  }

  predicate Enabled(s: State, t: Step) {
    match t
    case BgetHit(p, i, b) =>
      MayUse(s, p) && i < |s.bufs| && Caches(s.bufs[i], b) && p !in s.bufs[i].waiters
    case BgetMiss(p, i, b) =>
      && MayUse(s, p) && i < |s.bufs| && b < s.c.size
      && s.bufs[i].refcnt == 0
      && Uncached(s, b)
    case Lock(p, i) => i < |s.bufs| && p in s.bufs[i].waiters && s.bufs[i].holder == None
    case Fill(p, i) =>
      i < |s.bufs| && s.bufs[i].holder == Some(p) && !s.bufs[i].valid && s.bufs[i].blockno < |s.disk|
    case Unlock(p, i) =>
      i < |s.bufs| && s.bufs[i].holder == Some(p) && p !in s.bufs[i].leavers
    case Drop(p, i) => i < |s.bufs| && p in s.bufs[i].leavers && s.bufs[i].refcnt > 0
    case Begin(p) =>
      && p !in s.ops && !Committing(s) && !Recovering(s)
      && |s.lh| + (s.outstanding + 1) * MAXOPBLOCKS <= LOGSIZE
    case Write(p, i, d) =>
      && p in s.ops && i < |s.bufs| && s.c.Home(s.bufs[i].blockno)
      && Has(s, p, i, s.bufs[i].blockno)
      && |s.lh| < LOGSIZE && |s.lh| < s.c.nlog - 1 && s.outstanding >= 1
    case End(p) => p in s.ops && s.outstanding > 0
    case LogBlock(p, j, i) =>
      && s.phase.WritingLog? && s.phase.who == p && s.phase.tail < |s.lh|
      && Has(s, p, j, s.c.Slot(s.phase.tail)) && Has(s, p, i, s.lh[s.phase.tail])
    case CommitHead(p, j) =>
      && s.phase.WritingLog? && s.phase.who == p && s.phase.tail == |s.lh| <= LOGSIZE
      && Has(s, p, j, s.c.start)
    case InstallBlock(p, j, i) =>
      && (s.phase.Installing? || s.phase.Replaying?) && s.phase.who == p && s.phase.tail < |s.lh|
      && Has(s, p, j, s.c.Slot(s.phase.tail)) && Has(s, p, i, s.lh[s.phase.tail])
      && s.bufs[i].refcnt > 0
    case EraseHead(p, j) =>
      && (s.phase.Installing? || s.phase.Replaying?) && s.phase.who == p && s.phase.tail == |s.lh|
      && Has(s, p, j, s.c.start)
    case Finish(p) => s.phase.Erased? && s.phase.who == p
    case ReadHead(p, j) => s.phase.Booting? && s.phase.who == p && Has(s, p, j, s.c.start)
    case Crash(p) => true
  }

  function Put(s: State, i: nat, u: Buf): (r: State)
    requires i < |s.bufs|
  {
    s.(bufs := s.bufs[i := u])
  }

  /** memmove into buffer `j` followed by bwrite. */
  function WriteThrough(s: State, j: nat, d: Block): (r: State)
    requires j < |s.bufs| && s.bufs[j].blockno < |s.disk|
  {
    Put(s, j, s.bufs[j].(data := d)).(disk := s.disk[s.bufs[j].blockno := d])
  }

  function Unpin(s: State, i: nat): (r: State)
    requires i < |s.bufs| && s.bufs[i].refcnt > 0
  {
    Put(s, i, s.bufs[i].(refcnt := s.bufs[i].refcnt - 1))
  }

  ghost predicate Shaped(s: State) {
    && s.c.Valid() && |s.disk| == s.c.size
    && |s.bufs| == NBUF
    && (forall i :: 0 <= i < |s.bufs| ==> s.bufs[i].blockno < s.c.size)
    && GoodHead(s.c, s.lh)
  }

  predicate CacheOnly(t: Step) {
    t.BgetHit? || t.BgetMiss? || t.Lock? || t.Fill? || t.Unlock? || t.Drop?
  }

  /** What a step of bread or brelse makes of its buffer. */
  function Handled(s: State, t: Step): (u: Buf)
    requires CacheOnly(t) && Enabled(s, t)
  {
    var o := s.bufs[t.i];
    match t
    case BgetHit(p, _, _) => o.(refcnt := o.refcnt + 1, waiters := o.waiters + {p})
    case BgetMiss(p, _, b) =>
      o.(dev := ROOTDEV, blockno := b, valid := false, refcnt := 1, waiters := o.waiters + {p})
    case Lock(p, _) => o.(holder := Some(p), waiters := o.waiters - {p})
    case Fill(_, _) => o.(data := s.disk[o.blockno], valid := true)
    case Unlock(p, _) => o.(holder := None, leavers := o.leavers + {p})
    case Drop(p, _) => o.(refcnt := o.refcnt - 1, leavers := o.leavers - {p})
  }

  function Do(s: State, t: Step): (r: State)
    requires Shaped(s) && Enabled(s, t)
  {
    match t
    case BgetHit(_, i, _) => Put(s, i, Handled(s, t))
    case BgetMiss(_, i, _) => Put(s, i, Handled(s, t))
    case Lock(_, i) => Put(s, i, Handled(s, t))
    case Fill(_, i) => Put(s, i, Handled(s, t))
    case Unlock(_, i) => Put(s, i, Handled(s, t))
    case Drop(_, i) => Put(s, i, Handled(s, t))
    case Begin(p) => s.(ops := s.ops + {p}, outstanding := s.outstanding + 1)
    case Write(p, i, d) =>
      var u := s.bufs[i].(data := d);
      if u.blockno in s.lh then Put(s, i, u)
      else Put(s, i, u.(refcnt := u.refcnt + 1)).(lh := s.lh + [u.blockno])
    case End(p) =>
      var r := s.(ops := s.ops - {p}, outstanding := s.outstanding - 1);
      if r.outstanding > 0 then r
      else if |s.lh| > 0 then r.(phase := WritingLog(p, 0))
      else r.(phase := Erased(p))
    case LogBlock(p, j, i) =>
      WriteThrough(s, j, s.bufs[i].data).(phase := WritingLog(p, s.phase.tail + 1))
    case CommitHead(p, j) =>
      WriteThrough(s, j, PutHead(s.bufs[j].data, s.lh, |s.lh|)).(phase := Installing(p, 0))
    case InstallBlock(p, j, i) =>
      if s.phase.Replaying? then
        WriteThrough(s, i, s.bufs[j].data).(phase := Replaying(p, s.phase.tail + 1))
      else
        Unpin(WriteThrough(s, i, s.bufs[j].data), i).(phase := Installing(p, s.phase.tail + 1))
    case EraseHead(p, j) =>
      WriteThrough(s, j, PutHead(s.bufs[j].data, [], 0))
        .(lh := [], phase := if s.phase.Replaying? then Idle else Erased(p))
    case Finish(p) => s.(phase := Idle)
    case ReadHead(p, j) => s.(lh := Head(s.bufs[j].data), phase := Replaying(p, 0))
    case Crash(p) =>
      State(s.c, s.disk, FreeBufs(NBUF), [], {}, 0, Booting(p))
  }

  // Invariant

  /** The blocks that log_write has pinned and install_trans has not yet unpinned. */
  function Pinned(s: State): (r: seq<nat>) {
    match s.phase
    case Idle => s.lh
    case WritingLog(_, _) => s.lh
    case Installing(_, tail) => if tail <= |s.lh| then s.lh[tail..] else []
    case _ => []
  }

  /** A buffer's reference count is the processes using it, plus one while its block is pinned. */
  ghost predicate CountedRefs(pinned: seq<nat>, u: Buf) {
    && u.refcnt == |u.waiters| + |u.leavers| + (if u.holder.Some? then 1 else 0)
                   + (if u.dev == ROOTDEV && u.blockno in pinned then 1 else 0)
    && (u.dev == ROOTDEV || u == FreeBuf())
  }

  ghost predicate Refs(s: State) {
    && (forall i :: 0 <= i < |s.bufs| ==> CountedRefs(Pinned(s), s.bufs[i]))
    && s.outstanding == |s.ops|
    && (Committing(s) || Recovering(s) ==> s.ops == {})
    && (s.phase.Idle? && s.ops == {} ==> s.lh == [])
  }

  ghost predicate CachedValid(bufs: seq<Buf>, b: nat) {
    exists i :: 0 <= i < |bufs| && Caches(bufs[i], b) && bufs[i].valid
  }

  /** At most one buffer per block, every pinned block in one, and the rest as on disk. */
  ghost predicate CoherentWith(bufs: seq<Buf>, disk: Disk, pinned: seq<nat>)
    requires forall i :: 0 <= i < |bufs| ==> bufs[i].blockno < |disk|
  {
    && (forall i, j :: 0 <= i < j < |bufs| && bufs[i].dev == ROOTDEV && bufs[j].dev == ROOTDEV
          ==> bufs[i].blockno != bufs[j].blockno)
    && (forall b :: b in pinned ==> CachedValid(bufs, b))
    && (forall i :: 0 <= i < |bufs| && bufs[i].dev == ROOTDEV && bufs[i].valid && bufs[i].blockno !in pinned
          ==> bufs[i].data == disk[bufs[i].blockno])
  }

  ghost predicate Coherent(s: State)
    requires Shaped(s)
  {
    CoherentWith(s.bufs, s.disk, Pinned(s))
  }

  /** Log block `k` holds what the cache has for the block that header entry `k` names. */
  ghost predicate Copied(s: State, k: nat)
    requires Shaped(s) && k < |s.lh|
  {
    forall i :: 0 <= i < |s.bufs| && Caches(s.bufs[i], s.lh[k]) ==> s.disk[s.c.Slot(k)] == s.bufs[i].data
  }

  ghost predicate CopiedRange(s: State, lo: nat, hi: nat)
    requires Shaped(s) && hi <= |s.lh|
  {
    forall k :: lo <= k < hi ==> Copied(s, k)
  }

  ghost predicate InstalledTo(s: State, tail: nat)
    requires Shaped(s) && tail <= |s.lh|
  {
    forall k :: 0 <= k < tail ==> s.disk[s.lh[k]] == s.disk[s.c.Slot(k)]
  }

  ghost predicate Logged(s: State)
    requires Shaped(s)
  {
    && GoodDisk(s.c, s.disk)
    && (s.phase.Idle? || s.phase.WritingLog? || s.phase.Erased? ==> Head(s.disk[s.c.start]) == [])
    && (s.phase.Installing? || s.phase.Replaying? ==> Head(s.disk[s.c.start]) == s.lh)
    && (s.phase.Erased? || s.phase.Booting? ==> s.lh == [])
    && (s.phase.WritingLog? ==> s.phase.tail <= |s.lh| && CopiedRange(s, 0, s.phase.tail))
    && (s.phase.Installing? ==> s.phase.tail <= |s.lh| && CopiedRange(s, s.phase.tail, |s.lh|))
    && (s.phase.Installing? || s.phase.Replaying? ==> s.phase.tail <= |s.lh| && InstalledTo(s, s.phase.tail))
  }

  ghost predicate Inv(s: State) {
    Shaped(s) && Refs(s) && Coherent(s) && Logged(s)
  }

  /** The one buffer of a pinned block. */
  ghost function BufferOf(s: State, b: nat): (i: nat)
    requires Shaped(s) && Coherent(s) && b in Pinned(s)
    ensures i < |s.bufs| && Caches(s.bufs[i], b) && s.bufs[i].valid
    ensures forall k :: 0 <= k < |s.bufs| && Caches(s.bufs[k], b) ==> k == i
  {
    assert CachedValid(s.bufs, b);
    var i :| 0 <= i < |s.bufs| && Caches(s.bufs[i], b) && s.bufs[i].valid; i
  }

  /** What readers are promised for home block `b`: the pinned contents if there are any, else
      what recovery would find on the disk. */
  ghost function Current(s: State, b: nat): (d: Block)
    requires Inv(s) && s.c.Home(b)
  {
    if b in Pinned(s) then s.bufs[BufferOf(s, b)].data else Recovered(s.c, s.disk, b)
  }

  /** Neither what readers are promised nor what a crash would leave has changed. */
  ghost predicate SameViews(s: State, r: State) {
    && Inv(s) && Inv(r) && s.c == r.c
    && (forall b :: s.c.Home(b) ==> Current(r, b) == Current(s, b))
    && (forall b :: s.c.Home(b) ==> Recovered(r.c, r.disk, b) == Recovered(s.c, s.disk, b))
  }

  /** A replacement for buffer `i` that keeps its block and what is known of its contents, or
      that gives an unused buffer to a block without one. */
  ghost predicate Refresh(s: State, i: nat, u: Buf)
    requires Shaped(s) && i < |s.bufs|
  {
    var o := s.bufs[i];
    && u.dev == ROOTDEV && u.blockno < s.c.size && CountedRefs(Pinned(s), u)
    && (if Caches(o, u.blockno) then
          if o.valid then u.valid && u.data == o.data
          else u.valid ==> u.data == s.disk[u.blockno]
        else o.refcnt == 0 && Uncached(s, u.blockno) && !u.valid)
  }

  lemma PinnedEntry(s: State, k: nat)
    requires k < |s.lh|
    requires s.phase.Idle? || s.phase.WritingLog? || (s.phase.Installing? && s.phase.tail <= k)
    ensures s.lh[k] in Pinned(s)
  {
    if s.phase.Installing? { assert s.lh[k] == s.lh[s.phase.tail..][k - s.phase.tail]; }
  }

  lemma CacheStepCoherent(s: State, i: nat, u: Buf)
    requires Inv(s) && i < |s.bufs| && Refresh(s, i, u)
    ensures Coherent(Put(s, i, u))
  {
    hide Head, GoodDisk, GoodHead, Logged;
    var r := Put(s, i, u);
    assert Pinned(r) == Pinned(s);
    forall b | b in Pinned(r) ensures CachedValid(r.bufs, b) {
      var k := BufferOf(s, b);
      assert Caches(r.bufs[k], b) && r.bufs[k].valid;
    }
  }

  lemma CacheStepCopied(s: State, i: nat, u: Buf, k: nat)
    requires Inv(s) && i < |s.bufs| && Refresh(s, i, u)
    requires k < |s.lh| && s.lh[k] in Pinned(s) && Copied(s, k)
    ensures Copied(Put(s, i, u), k)
  {
    hide Head, GoodDisk, GoodHead, Logged, Refs;
    var x := BufferOf(s, s.lh[k]);
  }

  lemma CacheStepLogged(s: State, i: nat, u: Buf)
    requires Inv(s) && i < |s.bufs| && Refresh(s, i, u)
    ensures Logged(Put(s, i, u))
  {
    hide Head, GoodDisk, GoodHead, Copied, Refs, Coherent;
    var r := Put(s, i, u);
    forall k | 0 <= k < |s.lh| && s.lh[k] in Pinned(s) && Copied(s, k) ensures Copied(r, k) {
      CacheStepCopied(s, i, u, k);
    }
    if s.phase.WritingLog? || s.phase.Installing? {
      forall k | (if s.phase.Installing? then s.phase.tail else 0) <= k < |s.lh| ensures s.lh[k] in Pinned(s) {
        PinnedEntry(s, k);
      }
    }
  }

  lemma CacheStepRefs(s: State, i: nat, u: Buf)
    requires Inv(s) && i < |s.bufs| && Refresh(s, i, u)
    ensures Refs(Put(s, i, u))
  {
    hide GoodHead, Logged, Coherent;
    var r := Put(s, i, u);
    forall k | 0 <= k < |r.bufs| ensures CountedRefs(Pinned(r), r.bufs[k]) {
      assert CountedRefs(Pinned(s), r.bufs[k]);
    }
  }

  lemma CacheStep(s: State, i: nat, u: Buf)
    requires Inv(s) && i < |s.bufs| && Refresh(s, i, u)
    ensures SameViews(s, Put(s, i, u))
  {
    hide Head, Recovered, GoodDisk, GoodHead, Refs;
    var r := Put(s, i, u);
    CacheStepCoherent(s, i, u);
    CacheStepLogged(s, i, u);
    CacheStepRefs(s, i, u);
    forall b | s.c.Home(b) ensures Current(r, b) == Current(s, b) {
      if b in Pinned(s) {
        assert Caches(s.bufs[BufferOf(r, b)], b);
      }
    }
  }

  lemma UncachedFree(s: State, b: nat)
    requires Inv(s) && Uncached(s, b)
    ensures b !in Pinned(s)
  {
    hide GoodHead, Logged, Refs;
    assert b in Pinned(s) ==> CachedValid(s.bufs, b);
  }

  lemma RefsAt(s: State, i: nat)
    requires Inv(s) && i < |s.bufs|
    ensures CountedRefs(Pinned(s), s.bufs[i])
  {
  }

  lemma MissRefs(s: State, t: Step)
    requires Inv(s) && t.BgetMiss? && Enabled(s, t)
    ensures CountedRefs(Pinned(s), Handled(s, t))
  {
    hide Inv, Pinned;
    var o := s.bufs[t.i];
    RefsAt(s, t.i);
    assert o.waiters == {} && o.leavers == {} && o.holder == None;
    UncachedFree(s, t.b);
    assert |o.waiters + {t.p}| == 1;
  }

  lemma UsedBuf(s: State, t: Step)
    requires Inv(s) && CacheOnly(t) && !t.BgetMiss? && Enabled(s, t)
    ensures s.bufs[t.i].dev == ROOTDEV
  {
    hide Inv, Pinned;
    RefsAt(s, t.i);
  }

  lemma HandledRefs(s: State, t: Step)
    requires Inv(s) && CacheOnly(t) && Enabled(s, t)
    ensures CountedRefs(Pinned(s), Handled(s, t))
  {
    hide Inv, Pinned, Uncached, FreeBuf;
    if t.BgetMiss? {
      MissRefs(s, t);
      return;
    }
    var o := s.bufs[t.i];
    RefsAt(s, t.i);
    UsedBuf(s, t);
    match t
    case BgetHit(p, _, _) => assert |o.waiters + {p}| == |o.waiters| + 1;
    case Lock(p, _) => assert |o.waiters - {p}| == |o.waiters| - 1;
    case Fill(_, _) =>
    case Unlock(p, _) => assert |o.leavers + {p}| == |o.leavers| + 1;
    case Drop(p, _) => assert |o.leavers - {p}| == |o.leavers| - 1;
  }

  lemma CacheSteps(s: State, t: Step)
    requires Inv(s) && CacheOnly(t) && Enabled(s, t)
    ensures SameViews(s, Do(s, t))
  {
    hide Head, GoodDisk, GoodHead, Logged, SameViews;
    HandledRefs(s, t);
    assert CountedRefs(Pinned(s), s.bufs[t.i]);
    assert Refresh(s, t.i, Handled(s, t));
    CacheStep(s, t.i, Handled(s, t));
  }

  lemma OneBuffer(s: State, b: nat, i: nat, k: nat)
    requires Inv(s) && i < |s.bufs| && k < |s.bufs| && Caches(s.bufs[i], b) && Caches(s.bufs[k], b)
    ensures i == k
  {
  }

  lemma WriteRefs(s: State, p: Proc, i: nat, d: Block)
    requires Inv(s) && Enabled(s, Write(p, i, d))
    ensures Shaped(Do(s, Write(p, i, d))) && Refs(Do(s, Write(p, i, d)))
    ensures s.phase.Idle?
  {
    hide Head, GoodDisk, Logged, Coherent;
    var r := Do(s, Write(p, i, d));
    forall k | 0 <= k < |r.bufs| ensures CountedRefs(Pinned(r), r.bufs[k]) {
      assert CountedRefs(Pinned(s), s.bufs[k]);
      if Caches(s.bufs[k], s.bufs[i].blockno) { OneBuffer(s, s.bufs[i].blockno, i, k); }
    }
  }

  lemma WriteStep(s: State, p: Proc, i: nat, d: Block)
    requires Inv(s) && Enabled(s, Write(p, i, d))
    ensures var r := Do(s, Write(p, i, d));
            && Inv(r)
            && (forall b :: s.c.Home(b) ==>
                  Current(r, b) == if b == s.bufs[i].blockno then d else Current(s, b))
            && r.disk == s.disk
  {
    hide Head, GoodDisk, Recovered, Refs;
    WriteRefs(s, p, i, d);
    var r := Do(s, Write(p, i, d));
    var w := s.bufs[i].blockno;
    assert Pinned(r) == r.lh && Pinned(s) == s.lh;
    forall b | b in Pinned(r) ensures CachedValid(r.bufs, b) {
      var k := if b == w then i else BufferOf(s, b);
      assert Caches(r.bufs[k], b) && r.bufs[k].valid;
    }
    assert Inv(r);
    forall b | s.c.Home(b) ensures Current(r, b) == if b == w then d else Current(s, b) {
      if b == w {
        assert Caches(r.bufs[i], b);
      } else if b in Pinned(s) {
        assert Caches(r.bufs[BufferOf(s, b)], b);
      }
    }
  }

  /** A block that is not pinned is cached as it is on disk. */
  lemma CleanBuffer(s: State, i: nat)
    requires Inv(s) && i < |s.bufs| && s.bufs[i].dev == ROOTDEV && s.bufs[i].valid
    requires !s.c.Home(s.bufs[i].blockno)
    ensures s.bufs[i].data == s.disk[s.bufs[i].blockno]
    ensures s.bufs[i].blockno !in Pinned(s)
  {
  }

  /** Writing a block of the log region through the cache disturbs no other block. */
  lemma LogRegionWrite(s: State, j: nat, d: Block)
    requires Inv(s) && j < |s.bufs| && s.bufs[j].dev == ROOTDEV && !s.c.Home(s.bufs[j].blockno)
    ensures Shaped(WriteThrough(s, j, d)) && Refs(WriteThrough(s, j, d)) && Coherent(WriteThrough(s, j, d))
  {
    hide Head, GoodDisk, Logged;
    var r := WriteThrough(s, j, d);
    assert Pinned(r) == Pinned(s);
    forall k | 0 <= k < |r.bufs| ensures CountedRefs(Pinned(r), r.bufs[k]) {
      assert CountedRefs(Pinned(s), s.bufs[k]);
    }
    forall b | b in Pinned(r) ensures CachedValid(r.bufs, b) {
      assert Caches(r.bufs[BufferOf(s, b)], b);
    }
  }

  lemma SlotInLog(s: State, k: nat)
    requires Shaped(s) && k < |s.lh|
    ensures s.c.start < s.c.Slot(k) < s.c.size && !s.c.Home(s.c.Slot(k)) && !s.c.Home(s.c.start)
    ensures s.c.Home(s.lh[k])
  {
  }

  lemma PinnedHome(s: State, b: nat)
    requires Shaped(s) && b in Pinned(s)
    ensures s.c.Home(b)
  {
  }

  lemma LogBlockLogged(s: State, p: Proc, j: nat, i: nat)
    requires Inv(s) && Enabled(s, LogBlock(p, j, i))
    ensures var r := Do(s, LogBlock(p, j, i)); Shaped(r) && Logged(r)
  {
    hide Head, GoodHead, Refs, Coherent;
    var r := Do(s, LogBlock(p, j, i));
    SlotInLog(s, s.phase.tail);
    forall k | 0 <= k < s.phase.tail + 1 ensures Copied(r, k) {
      SlotInLog(s, k);
      if k == s.phase.tail {
        forall x | 0 <= x < |r.bufs| && Caches(r.bufs[x], s.lh[k]) ensures r.bufs[x].data == s.bufs[i].data {
          OneBuffer(s, s.lh[k], i, x);
        }
      } else {
        assert Copied(s, k);
      }
    }
  }

  /** Equal home blocks under equally empty headers mean the same. */
  lemma SameHomeSameViews(s: State, r: State)
    requires Inv(s) && Inv(r) && s.c == r.c && Pinned(r) == Pinned(s)
    requires Head(s.disk[s.c.start]) == [] && Head(r.disk[r.c.start]) == []
    requires forall b: nat :: s.c.Home(b) ==> r.disk[b] == s.disk[b]
    requires forall b :: b in Pinned(s) ==> r.bufs[BufferOf(s, b)] == s.bufs[BufferOf(s, b)]
    ensures SameViews(s, r)
  {
    hide Head, GoodHead, Refs, Coherent, GoodDisk, Recovered;
    forall b: nat | s.c.Home(b) ensures Recovered(r.c, r.disk, b) == Recovered(s.c, s.disk, b) {
      RecoveredAt(s.c, s.disk, b);
      RecoveredAt(r.c, r.disk, b);
    }
    forall b | s.c.Home(b) && b in Pinned(s) ensures Current(r, b) == Current(s, b) {
      assert Caches(r.bufs[BufferOf(s, b)], b);
    }
  }

  lemma LogBlockStep(s: State, p: Proc, j: nat, i: nat)
    requires Inv(s) && Enabled(s, LogBlock(p, j, i))
    ensures SameViews(s, Do(s, LogBlock(p, j, i)))
  {
    hide Head, GoodHead, GoodDisk, SameViews, Copied;
    var r := Do(s, LogBlock(p, j, i));
    SlotInLog(s, s.phase.tail);
    LogRegionWrite(s, j, s.bufs[i].data);
    LogBlockLogged(s, p, j, i);
    assert Pinned(r) == Pinned(s);
    assert Refs(r) && Coherent(r);
    forall b | b in Pinned(s) ensures BufferOf(s, b) != j { PinnedHome(s, b); }
    SameHomeSameViews(s, r);
  }

  ghost function CurrentMap(s: State): (v: map<nat, Block>)
    requires Inv(s)
  {
    map b: nat | b < s.c.size && s.c.Home(b) :: Current(s, b)
  }

  lemma CopiedIsCurrent(s: State, k: nat)
    requires Inv(s) && k < |s.lh| && s.lh[k] in Pinned(s) && Copied(s, k)
    ensures s.disk[s.c.Slot(k)] == Current(s, s.lh[k])
  {
    hide Head, GoodDisk, Refs, Recovered;
  }

  lemma UnpinnedCurrent(s: State, b: nat)
    requires Inv(s) && s.c.Home(b) && b !in Pinned(s) && b !in Head(s.disk[s.c.start])
    ensures Current(s, b) == s.disk[b]
  {
    RecoveredAt(s.c, s.disk, b);
  }

  /** The log's header is on the disk, and with it what readers are promised. */
  ghost predicate HeadWritten(s: State, r: State)
    requires Inv(s)
  {
    && r.c == s.c && r.disk == WithHead(s.c, s.disk, s.lh)
    && GoodDisk(r.c, r.disk) && Head(r.disk[r.c.start]) == s.lh
    && (forall b: nat :: s.c.Home(b) ==> Recovered(r.c, r.disk, b) == Current(s, b))
  }

  lemma CommitHeadDisk(s: State, p: Proc, j: nat)
    requires Inv(s) && Enabled(s, CommitHead(p, j))
    ensures HeadWritten(s, Do(s, CommitHead(p, j)))
  {
    hide Head, PutHead, Refs, Recovered, CoherentWith, Copied, GoodDisk;
    CleanBuffer(s, j);
    WithHeadNames(s.c, s.disk, s.lh);
    var v := CurrentMap(s);
    forall i | 0 <= i < |s.lh| ensures s.disk[s.c.Slot(i)] == v[s.lh[i]] {
      CopiedIsCurrent(s, i);
    }
    forall b: nat | s.c.Home(b) && b !in s.lh ensures s.disk[b] == v[b] {
      UnpinnedCurrent(s, b);
    }
    HeaderCommits(s.c, s.disk, s.lh, v);
  }

  /** The commit point: what a crash would leave becomes what readers are promised. */
  lemma CommitHeadStep(s: State, p: Proc, j: nat)
    requires Inv(s) && Enabled(s, CommitHead(p, j))
    ensures var r := Do(s, CommitHead(p, j));
            && Inv(r)
            && (forall b: nat :: s.c.Home(b) ==>
                  Current(r, b) == Current(s, b) && Recovered(r.c, r.disk, b) == Current(s, b))
  {
    hide Head, PutHead, GoodHead, GoodDisk, Recovered;
    var r := Do(s, CommitHead(p, j));
    assert !s.c.Home(s.c.start);
    LogRegionWrite(s, j, r.bufs[j].data);
    CommitHeadDisk(s, p, j);
    assert Pinned(r) == Pinned(s);
    forall k | 0 <= k < |s.lh| ensures Copied(r, k) {
      SlotInLog(s, k);
      assert Copied(s, k);
    }
    assert Inv(r);
    forall b: nat | s.c.Home(b) ensures Current(r, b) == Current(s, b) {
      if b in Pinned(s) { assert Caches(r.bufs[BufferOf(s, b)], b); }
    }
  }

  lemma InstallRefs(s: State, p: Proc, j: nat, i: nat)
    requires Inv(s) && Enabled(s, InstallBlock(p, j, i))
    ensures Refs(Do(s, InstallBlock(p, j, i)))
  {
    hide Head, GoodDisk, Logged, CoherentWith;
    var r := Do(s, InstallBlock(p, j, i));
    forall k | 0 <= k < |r.bufs| ensures CountedRefs(Pinned(r), r.bufs[k]) {
      assert CountedRefs(Pinned(s), s.bufs[k]);
      if Caches(s.bufs[k], s.lh[s.phase.tail]) { OneBuffer(s, s.lh[s.phase.tail], i, k); }
      if s.phase.Installing? { InstallPinned(s, p, j, i, s.bufs[k].blockno); }
    }
  }

  lemma InstallPinned(s: State, p: Proc, j: nat, i: nat, b: nat)
    requires Inv(s) && Enabled(s, InstallBlock(p, j, i)) && s.phase.Installing?
    ensures b in Pinned(Do(s, InstallBlock(p, j, i))) <==> b in Pinned(s) && b != s.lh[s.phase.tail]
  {
    hide Head, GoodDisk, Refs, CoherentWith, Logged;
    var l := s.lh[s.phase.tail..];
    assert l[1..] == s.lh[s.phase.tail + 1..];
    DropFirst(l, b);
  }

  lemma DropFirst(l: seq<nat>, b: nat)
    requires l != [] && forall i, j :: 0 <= i < j < |l| ==> l[i] != l[j]
    ensures b in l[1..] <==> b in l && b != l[0]
  {
    assert l == [l[0]] + l[1..];
  }

  lemma InstallCoherent(s: State, p: Proc, j: nat, i: nat)
    requires Inv(s) && Enabled(s, InstallBlock(p, j, i))
    ensures var r := Do(s, InstallBlock(p, j, i));
            && Shaped(r) && Coherent(r)
            && r.disk == s.disk[s.lh[s.phase.tail] := s.disk[s.c.Slot(s.phase.tail)]]
  {
    hide Head, GoodDisk, Refs, Logged;
    var r := Do(s, InstallBlock(p, j, i));
    SlotInLog(s, s.phase.tail);
    CleanBuffer(s, j);
    if s.phase.Installing? {
      forall b: nat ensures b in Pinned(r) <==> b in Pinned(s) && b != s.lh[s.phase.tail] {
        InstallPinned(s, p, j, i, b);
      }
    }
    forall b | b in Pinned(r) ensures CachedValid(r.bufs, b) {
      assert Caches(r.bufs[BufferOf(s, b)], b);
    }
  }

  lemma InstallInstalled(s: State, p: Proc, j: nat, i: nat)
    requires Inv(s) && Enabled(s, InstallBlock(p, j, i))
    ensures var r := Do(s, InstallBlock(p, j, i));
            Shaped(r) && InstalledTo(r, s.phase.tail + 1) && r.disk[s.c.start] == s.disk[s.c.start]
  {
    hide Head, Refs, Coherent, GoodDisk, GoodHead, CopiedRange;
    InstallCoherent(s, p, j, i);
    assert InstalledTo(s, s.phase.tail);
    InstalledMore(s.c, s.disk, s.lh, s.phase.tail);
  }

  lemma InstalledMore(c: Layout, d: Disk, lh: seq<nat>, tail: nat)
    requires c.Valid() && |d| == c.size && GoodHead(c, lh) && tail < |lh|
    requires forall k :: 0 <= k < tail ==> d[lh[k]] == d[c.Slot(k)]
    ensures var e := d[lh[tail] := d[c.Slot(tail)]];
            (forall k :: 0 <= k <= tail ==> e[lh[k]] == e[c.Slot(k)]) && e[c.start] == d[c.start]
  {
    assert forall k :: 0 <= k < |lh| ==> c.Home(lh[k]);
  }

  lemma InstallLogged(s: State, p: Proc, j: nat, i: nat)
    requires Inv(s) && Enabled(s, InstallBlock(p, j, i))
    ensures var r := Do(s, InstallBlock(p, j, i));
            && Shaped(r) && Logged(r) && SameMeaning(s.c, s.disk, r.disk)
  {
    hide Head, Refs, CoherentWith, Copied, GoodDisk, Recovered, InstalledTo, GoodHead;
    var r := Do(s, InstallBlock(p, j, i));
    InstallCoherent(s, p, j, i);
    InstallOne(s.c, s.disk, s.phase.tail);
    InstallInstalled(s, p, j, i);
    if s.phase.Installing? {
      forall k | s.phase.tail + 1 <= k < |s.lh| ensures Copied(r, k) {
        InstallCopied(s, p, j, i, k);
      }
    }
  }

  lemma InstallCopied(s: State, p: Proc, j: nat, i: nat, k: nat)
    requires Inv(s) && Enabled(s, InstallBlock(p, j, i)) && s.phase.tail < k < |s.lh| && Copied(s, k)
    ensures var r := Do(s, InstallBlock(p, j, i)); Shaped(r) && Copied(r, k)
  {
    hide Head, Refs, CoherentWith, GoodDisk, Logged;
    InstallCoherent(s, p, j, i);
    SlotInLog(s, k);
    SlotInLog(s, s.phase.tail);
  }

  lemma InstallStep(s: State, p: Proc, j: nat, i: nat)
    requires Inv(s) && Enabled(s, InstallBlock(p, j, i))
    ensures SameViews(s, Do(s, InstallBlock(p, j, i)))
  {
    hide Head, GoodHead, GoodDisk, Recovered, Refs, CoherentWith, Copied;
    var r := Do(s, InstallBlock(p, j, i));
    InstallRefs(s, p, j, i);
    InstallCoherent(s, p, j, i);
    InstallLogged(s, p, j, i);
    assert Inv(r);
    forall b: nat | s.c.Home(b) ensures Current(r, b) == Current(s, b) {
      if s.phase.Installing? {
        InstallPinned(s, p, j, i, b);
        if b == s.lh[s.phase.tail] {
          PinnedEntry(s, s.phase.tail);
          CopiedIsCurrent(s, s.phase.tail);
          RecoveredAt(s.c, s.disk, b);
        } else if b in Pinned(s) {
          assert Caches(r.bufs[BufferOf(s, b)], b);
        }
      }
    }
  }

  lemma EraseHeadDisk(s: State, p: Proc, j: nat)
    requires Inv(s) && Enabled(s, EraseHead(p, j))
    ensures var r := Do(s, EraseHead(p, j));
            && r.disk == WithHead(s.c, s.disk, [])
            && SameMeaning(s.c, s.disk, r.disk) && Head(r.disk[r.c.start]) == []
  {
    hide Head, PutHead, Refs, Recovered, CoherentWith, GoodDisk, CopiedRange;
    CleanBuffer(s, j);
    var e := WithHead(s.c, s.disk, []);
    WithHeadNames(s.c, s.disk, []);
    forall b: nat | s.c.Home(b) ensures Recovered(s.c, s.disk, b) == Recovered(s.c, e, b) {
      RecoveredAt(s.c, s.disk, b);
      RecoveredAt(s.c, e, b);
      if b in s.lh { var k :| 0 <= k < |s.lh| && s.lh[k] == b; }
    }
  }

  lemma EraseHeadStep(s: State, p: Proc, j: nat)
    requires Inv(s) && Enabled(s, EraseHead(p, j))
    ensures SameViews(s, Do(s, EraseHead(p, j)))
  {
    hide Head, PutHead, GoodHead, GoodDisk, Recovered, CoherentWith;
    var r := Do(s, EraseHead(p, j));
    LogRegionWrite(s, j, r.bufs[j].data);
    EraseHeadDisk(s, p, j);
    assert Pinned(s) == [] && Pinned(r) == [];
    assert GoodHead(r.c, r.lh) by { EmptyHeadIsGood(r.c); }
    assert Refs(r) by { assert Refs(WriteThrough(s, j, r.bufs[j].data)); }
  }

  lemma EmptyHeadIsGood(c: Layout)
    requires c.Valid()
    ensures GoodHead(c, [])
  {
  }

  lemma ReadHeadStep(s: State, p: Proc, j: nat)
    requires Inv(s) && Enabled(s, ReadHead(p, j))
    ensures SameViews(s, Do(s, ReadHead(p, j)))
  {
    hide Head, Recovered, CoherentWith;
    CleanBuffer(s, j);
  }

  /** begin_op, end_op and the end of commit move no block. */
  lemma BracketStep(s: State, t: Step)
    requires Inv(s) && Enabled(s, t) && (t.Begin? || t.End? || t.Finish?)
    ensures SameViews(s, Do(s, t))
  {
    hide Head, Recovered, CoherentWith, GoodHead, GoodDisk;
    var r := Do(s, t);
    assert Pinned(r) == Pinned(s);
    if t.Begin? { assert |s.ops + {t.p}| == |s.ops| + 1; }
    if t.End? { assert |s.ops - {t.p}| == |s.ops| - 1; }
    assert Inv(r);
    forall b: nat | s.c.Home(b) && b in Pinned(s) ensures Current(r, b) == Current(s, b) {
      assert Caches(r.bufs[BufferOf(s, b)], b);
    }
  }

  /** A crash drops what was not committed and nothing else. */
  lemma CrashStep(s: State, p: Proc)
    requires Inv(s)
    ensures var r := Do(s, Crash(p));
            && Inv(r) && r.disk == s.disk
            && forall b: nat :: s.c.Home(b) ==> Current(r, b) == Recovered(s.c, s.disk, b)
  {
    hide Head, Recovered, GoodDisk;
    EmptyHeadIsGood(s.c);
  }

  // The block store that the stack implements

  /** One log_write: operation `op` sets block `b` to `d`. */
  datatype Entry = Entry(op: nat, b: nat, d: Block)

  /** A store that applies log_writes in order and keeps a prefix of them across a crash.
      `open` numbers the operations between begin_op and end_op. */
  datatype Store = Store(base: map<nat, Block>, hist: seq<Entry>, committed: nat, open: map<Proc, nat>, next: nat)

  function Replay(base: map<nat, Block>, hist: seq<Entry>): (v: map<nat, Block>) {
    if hist == [] then base
    else Replay(base, hist[..|hist| - 1])[hist[|hist| - 1].b := hist[|hist| - 1].d]
  }

  /** Every operation is wholly inside or wholly outside the committed prefix, and those inside
      have ended. */
  ghost predicate WholeOperations(m: Store) {
    && m.committed <= |m.hist|
    && (forall i, j :: 0 <= i < m.committed <= j < |m.hist| ==> m.hist[i].op != m.hist[j].op)
    && (forall i, p :: 0 <= i < m.committed && p in m.open ==> m.hist[i].op != m.open[p])
  }

  ghost predicate StoreInv(m: Store) {
    && WholeOperations(m)
    && (forall i :: 0 <= i < |m.hist| ==> m.hist[i].op < m.next)
    && (forall p :: p in m.open ==> m.open[p] < m.next)
  }

  function StoreDo(m: Store, s: State, t: Step): (r: Store) {
    match t
    case Begin(p) => m.(open := m.open[p := m.next], next := m.next + 1)
    case Write(p, i, d) =>
      if p in m.open && i < |s.bufs| then m.(hist := m.hist + [Entry(m.open[p], s.bufs[i].blockno, d)]) else m
    case End(p) => m.(open := m.open - {p})
    case CommitHead(_, _) => m.(committed := |m.hist|)
    case Crash(_) => if m.committed <= |m.hist| then m.(hist := m.hist[..m.committed], open := map[]) else m
    case _ => m
  }

  /** Readers are promised the whole history and a crash leaves its committed prefix. */
  ghost predicate Matches(s: State, m: Store)
    requires Inv(s)
  {
    && m.open.Keys == s.ops
    && m.committed <= |m.hist|
    && (forall b: nat :: s.c.Home(b) ==>
          && b in m.base && b in Replay(m.base, m.hist) && b in Replay(m.base, m.hist[..m.committed])
          && Current(s, b) == Replay(m.base, m.hist)[b]
          && Recovered(s.c, s.disk, b) == Replay(m.base, m.hist[..m.committed])[b])
  }

  lemma StoreStep(s: State, m: Store, t: Step)
    requires Inv(s) && StoreInv(m) && Matches(s, m) && Enabled(s, t)
    ensures StoreInv(StoreDo(m, s, t))
    ensures StoreDo(m, s, t).open.Keys == Do(s, t).ops
  {
    hide Head, PutHead, Recovered, GoodDisk, GoodHead, CoherentWith, Current, Replay, Shaped, Logged, StoreInv;
    assert t.CommitHead? ==> s.ops == {};
    StoreKeeps(s, m, t);
  }

  /** Operations stay whole if the header is written while none is open. */
  lemma StoreKeeps(s: State, m: Store, t: Step)
    requires StoreInv(m) && (t.CommitHead? ==> m.open.Keys == {})
    ensures StoreInv(StoreDo(m, s, t))
  {
  }

  lemma QuietStep(s: State, t: Step)
    requires Inv(s) && Enabled(s, t) && !t.Write? && !t.CommitHead? && !t.Crash?
    ensures SameViews(s, Do(s, t))
  {
    hide *;
    match t
    case Begin(_) => BracketStep(s, t);
    case End(_) => BracketStep(s, t);
    case Finish(_) => BracketStep(s, t);
    case LogBlock(p, j, i) => LogBlockStep(s, p, j, i);
    case InstallBlock(p, j, i) => InstallStep(s, p, j, i);
    case EraseHead(p, j) => EraseHeadStep(s, p, j);
    case ReadHead(p, j) => ReadHeadStep(s, p, j);
    case BgetHit(_, _, _) => QuietCacheStep(s, t);
    case BgetMiss(_, _, _) => QuietCacheStep(s, t);
    case Lock(_, _) => QuietCacheStep(s, t);
    case Fill(_, _) => QuietCacheStep(s, t);
    case Unlock(_, _) => QuietCacheStep(s, t);
    case Drop(_, _) => QuietCacheStep(s, t);
  }

  lemma QuietCacheStep(s: State, t: Step)
    requires Inv(s) && Enabled(s, t)
    requires t.BgetHit? || t.BgetMiss? || t.Lock? || t.Fill? || t.Unlock? || t.Drop?
    ensures SameViews(s, Do(s, t))
  {
    CacheSteps(s, t);
  }

  lemma ReplayMore(base: map<nat, Block>, hist: seq<Entry>, e: Entry)
    ensures Replay(base, hist + [e]) == Replay(base, hist)[e.b := e.d]
  {
    assert (hist + [e])[..|hist|] == hist;
  }

  /** Forward simulation: every step of the kernel's caches and log is a step of the store. */
  lemma Simulation(s: State, m: Store, t: Step)
    requires Inv(s) && StoreInv(m) && Matches(s, m) && Enabled(s, t)
    ensures Inv(Do(s, t)) && StoreInv(StoreDo(m, s, t)) && Matches(Do(s, t), StoreDo(m, s, t))
  {
    hide Head, PutHead, Recovered, GoodDisk, GoodHead, Replay, CoherentWith, Current, Inv, StoreInv, Handled;
    StoreStep(s, m, t);
    var n := StoreDo(m, s, t);
    match t
    case Write(p, i, d) =>
      WriteStep(s, p, i, d);
      ReplayMore(m.base, m.hist, n.hist[|n.hist| - 1]);
      assert n.hist[..n.committed] == m.hist[..m.committed];
    case CommitHead(p, j) =>
      CommitHeadStep(s, p, j);
      assert n.hist[..n.committed] == n.hist;
    case Crash(p) =>
      CrashStep(s, p);
      assert n.hist[..n.committed] == n.hist;
    case _ => QuietStep(s, t);
  }

  // Whole runs

  /** The machine as it starts on a disk, before recovery has run. */
  function Boot(c: Layout, d: Disk, p: Proc): (s: State) {
    State(c, d, FreeBufs(NBUF), [], {}, 0, Booting(p))
  }

  ghost predicate Legal(s: State, ts: seq<Step>)
    decreases |ts|
  {
    ts == [] || (Shaped(s) && Enabled(s, ts[0]) && Legal(Do(s, ts[0]), ts[1..]))
  }

  ghost function Exec(s: State, ts: seq<Step>): (r: State)
    requires Legal(s, ts)
    decreases |ts|
  {
    if ts == [] then s else Exec(Do(s, ts[0]), ts[1..])
  }

  ghost function StoreExec(m: Store, s: State, ts: seq<Step>): (r: Store)
    requires Legal(s, ts)
    decreases |ts|
  {
    if ts == [] then m else StoreExec(StoreDo(m, s, ts[0]), Do(s, ts[0]), ts[1..])
  }

  lemma {:induction false} RunSimulation(s: State, m: Store, ts: seq<Step>)
    requires Inv(s) && StoreInv(m) && Matches(s, m) && Legal(s, ts)
    ensures Inv(Exec(s, ts)) && StoreInv(StoreExec(m, s, ts)) && Matches(Exec(s, ts), StoreExec(m, s, ts))
    decreases |ts|
  {
    hide Inv, StoreInv, Matches;
    if ts != [] {
      Simulation(s, m, ts[0]);
      RunSimulation(Do(s, ts[0]), StoreDo(m, s, ts[0]), ts[1..]);
    }
  }

  /** Crash safety, for every run of every number of processes from boot: reads see the last
      log_write, a crash at this point would keep exactly the committed prefix of the log_writes,
      and that prefix consists of whole, finished operations. */
  lemma CrashSafety(c: Layout, d: Disk, p: Proc, ts: seq<Step>)
    requires GoodDisk(c, d) && Legal(Boot(c, d, p), ts)
    ensures var base := map b: nat | b < c.size && c.Home(b) :: Recovered(c, d, b);
            var s, m := Exec(Boot(c, d, p), ts), StoreExec(Store(base, [], 0, map[], 0), Boot(c, d, p), ts);
            Inv(s) && Matches(s, m) && WholeOperations(m)
  {
    hide Recovered, Head;
    var base := map b: nat | b < c.size && c.Home(b) :: Recovered(c, d, b);
    var s, m := Boot(c, d, p), Store(base, [], 0, map[], 0);
    EmptyHeadIsGood(c);
    assert Inv(s);
    assert m.hist[..m.committed] == [];
    assert Matches(s, m);
    RunSimulation(s, m, ts);
  }

  /** bread returns the last logged contents of a block, through any evictions and commits. */
  lemma ReadsSeeLastWrite(s: State, m: Store, p: Proc, i: nat, b: nat)
    requires Inv(s) && Matches(s, m) && !Recovering(s) && s.c.Home(b) && Has(s, p, i, b)
    ensures s.bufs[i].data == Replay(m.base, m.hist)[b]
  {
    hide Inv, Current;
    SeesCurrent(s, p, i, b);
  }

  lemma SeesCurrent(s: State, p: Proc, i: nat, b: nat)
    requires Inv(s) && !Recovering(s) && s.c.Home(b) && Has(s, p, i, b)
    ensures s.bufs[i].data == Current(s, b)
  {
    if b in Pinned(s) {
      OneBuffer(s, b, i, BufferOf(s, b));
    } else {
      RecoveredAt(s.c, s.disk, b);
      if b in Head(s.disk[s.c.start]) {
        var k :| 0 <= k < |s.lh| && s.lh[k] == b;
        if k >= s.phase.tail { PinnedEntry(s, k); }
      }
    }
  }

  /** Whenever the log is empty and no recovery is running, and so just after recovery, the home
      blocks on disk are the committed prefix. */
  lemma RecoveryRestores(s: State, m: Store, b: nat)
    requires Inv(s) && Matches(s, m) && (s.phase.Idle? || s.phase.Erased?) && s.c.Home(b)
    ensures s.disk[b] == Replay(m.base, m.hist[..m.committed])[b]
  {
    RecoveredAt(s.c, s.disk, b);
  }

  /** Home blocks change only while no operation is outstanding. */
  lemma HomeChangesWhenQuiet(s: State, t: Step, b: nat)
    requires Inv(s) && Enabled(s, t) && s.c.Home(b) && Do(s, t).disk[b] != s.disk[b]
    ensures s.ops == {} && s.outstanding == 0 && b in s.lh
  {
    hide Head, GoodDisk, CoherentWith;
  }

  /** A process between begin_op and end_op finds the log neither committing nor idle, so neither
      panic on that account can fire; and no reference count is dropped below zero. */
  lemma BracketsHold(s: State, p: Proc)
    requires Inv(s)
    ensures p in s.ops ==> !Committing(s) && s.outstanding >= 1
    ensures forall i :: 0 <= i < |s.bufs| && (p in s.bufs[i].leavers || s.bufs[i].holder == Some(p)) ==>
              s.bufs[i].refcnt > 0
  {
    hide Head, GoodDisk, CoherentWith;
    forall i | 0 <= i < |s.bufs| && (p in s.bufs[i].leavers || s.bufs[i].holder == Some(p))
      ensures s.bufs[i].refcnt > 0
    {
      assert CountedRefs(Pinned(s), s.bufs[i]);
    }
  }
}
