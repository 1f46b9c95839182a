/** That reading a block and committing a transaction get somewhere (kernel/bio.c, kernel/log.c). */
module StorageProgress {
  import opened Basics
  import opened Blocks
  import opened LogDisk
  import opened Storage

  /** bget has found or recycled a buffer that nobody has locked: bread then ends with the buffer locked
      and holding what readers are promised of the block. */
  lemma BreadReads(s: State, p: Proc, i: nat, b: nat, t: Step)
    requires Inv(s) && (t == BgetHit(p, i, b) || t == BgetMiss(p, i, b)) && Enabled(s, t) && s.bufs[i].holder == None
    ensures var r := Do(s, t);
            && Inv(r) && Enabled(r, Lock(p, i))
            && var l := Do(r, Lock(p, i));
               && Inv(l) && (!l.bufs[i].valid ==> Enabled(l, Fill(p, i)))
               && var e := if l.bufs[i].valid then l else Do(l, Fill(p, i));
                  && Inv(e) && e.c == s.c && Has(e, p, i, b) && e.bufs[i].refcnt == r.bufs[i].refcnt > 0
                  && (!Recovering(s) && s.c.Home(b) ==> e.bufs[i].data == Current(s, b))
  {
    hide Current, Recovered, Head, GoodDisk, GoodHead, CoherentWith;
    QuietCacheStep(s, t);
    var r := Do(s, t);
    QuietCacheStep(r, Lock(p, i));
    var l := Do(r, Lock(p, i));
    if !l.bufs[i].valid { QuietCacheStep(l, Fill(p, i)); }
    var e := if l.bufs[i].valid then l else Do(l, Fill(p, i));
    if !Recovering(s) && s.c.Home(b) { SeesCurrent(e, p, i, b); }
  }

  /** brelse gives back the lock and the reference, and leaves the contents. */
  lemma BrelseReleases(s: State, p: Proc, i: nat, b: nat)
    requires Inv(s) && Has(s, p, i, b) && p !in s.bufs[i].leavers
    ensures var r := Do(s, Unlock(p, i));
            && Inv(r) && r.bufs[i].holder == None && Enabled(r, Drop(p, i))
            && var e := Do(r, Drop(p, i));
               && Inv(e) && e.bufs[i] == s.bufs[i].(holder := None, refcnt := s.bufs[i].refcnt - 1)
  {
    hide Current, Recovered, Head, GoodDisk, GoodHead, CoherentWith;
    QuietCacheStep(s, Unlock(p, i));
    var r := Do(s, Unlock(p, i));
    RefsAt(s, i);
    RefsAt(r, i);
    assert s.bufs[i].leavers + {p} - {p} == s.bufs[i].leavers;
    QuietCacheStep(r, Drop(p, i));
  }

  /** begin_op waits exactly while a commit or the recovery is under way, or the log might not have room
      for one more operation; and then the operation is one of those outstanding. */
  lemma BeginAdmits(s: State, p: Proc)
    requires Inv(s) && p !in s.ops
    ensures Enabled(s, Begin(p)) <==> s.phase.Idle? && |s.lh| + (|s.ops| + 1) * MAXOPBLOCKS <= LOGSIZE
    ensures Enabled(s, Begin(p)) ==> Do(s, Begin(p)).ops == s.ops + {p} && Do(s, Begin(p)).lh == s.lh
  {
    hide Head, GoodDisk, GoodHead, Coherent, Logged;
  }

  /** How many steps of its own the commit or recovery under way is from its end. */
  function Left(s: State): (k: int) {
    match s.phase
    case Idle => 0
    case WritingLog(_, tail) => 3 + 2 * |s.lh| - tail
    case Installing(_, tail) => 2 + |s.lh| - tail
    case Erased(_) => 1
    case Booting(_) => 2 + LOGSIZE
    case Replaying(_, tail) => 1 + |s.lh| - tail
  }

  predicate Commits(t: Step) {
    t.LogBlock? || t.CommitHead? || t.InstallBlock? || t.EraseHead? || t.Finish? || t.ReadHead?
  }

  lemma HeadShort(b: Block)
    ensures |Head(b)| <= LOGSIZE
  {
  }

  /** Each step of commit() and of recover_from_log() brings it closer to its end, where the log is
      empty. */
  lemma CommitEnds(s: State, t: Step)
    requires Inv(s) && Enabled(s, t) && Commits(t)
    ensures 0 <= Left(Do(s, t)) < Left(s)
    ensures Do(s, t).phase.Idle? ==> Do(s, t).lh == []
  {
    hide Head, Recovered, GoodDisk, GoodHead, Coherent, PutHead, CopiedRange, InstalledTo;
    if t.ReadHead? { HeadShort(s.bufs[t.j].data); }
  }

  /** Nobody else's step sets it back, and the end of the last operation starts it. */
  lemma CommitStands(s: State, t: Step)
    requires Inv(s) && Enabled(s, t) && !Commits(t) && !t.Crash?
    ensures !t.End? ==> Do(s, t).phase == s.phase && (!t.Write? ==> Left(Do(s, t)) == Left(s))
    ensures t.End? ==> s.phase.Idle? && (Do(s, t).phase.Idle? <==> s.outstanding > 1)
  {
    hide Head, Recovered, GoodDisk, GoodHead, Coherent, PutHead, Logged, Handled;
  }
}
