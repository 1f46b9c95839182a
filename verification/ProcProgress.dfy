/** That fork, exit and wait get somewhere: what wait returns for, that each call ends by its own
    steps, and that the locks do not deadlock. */
module ProcProgress {
  import opened SpinLock
  import opened ProcLife
  import opened ProcSafety

  /** wait gives up only if the process has been killed or has no children, goes to sleep only if it
      has children and none is a zombie, and takes what it finds. */
  lemma WaitEnds(t: Table, p: nat)
    requires Inv(t) && Can(t, Advance(p)) && t.procs[p].pc.Scan?
    ensures var r := Next(t, Advance(p)).procs[p].pc;
            && (r == Leaving ==> t.procs[p].killed || forall c :: 0 <= c < |t.procs| ==> t.procs[c].parent != p)
            && (r == Blocked ==> !t.procs[p].killed && HasChild(t, p))
            && (r == Blocked ==> forall c :: 0 <= c < |t.procs| && t.procs[c].parent == p ==> t.procs[c].st != ZOMBIE)
            && (r == Leaving || r == Blocked || r.Scan? || (r.ScanHeld? && r.i == t.procs[p].pc.i))
  {
    assert Single(t, p);
    var pc := t.procs[p].pc;
    forall c | 0 <= c < |t.procs| && pc.i >= |t.procs| && t.procs[c].parent == p
      ensures pc.kids && t.procs[c].st != ZOMBIE
    {
      assert Pair(t, p, c);
    }
  }

  /** wait returns the pid of a child exactly when it comes to one that is a zombie, whose slot is free
      from then on. */
  lemma WaitReaps(t: Table, p: nat)
    requires Inv(t) && Can(t, Advance(p)) && t.procs[p].pc.ScanHeld?
    ensures t.procs[p].pc.i < |t.procs|
    ensures var i, r := t.procs[p].pc.i, Next(t, Advance(p));
            if t.procs[i].st == ZOMBIE
            then r.procs[i].st == UNUSED && r.reaped == t.reaped + [t.procs[i].pid] && r.procs[p].pc == Leaving
            else r.reaped == t.reaped && r.procs[i].st == t.procs[i].st && r.procs[p].pc == Scan(i + 1, true)
  {
    assert Single(t, p);
  }

  /** fork ends with a child that can run, is the caller's, and has a pid that nobody else has or has
      had. */
  lemma ForkGives(t: Table, p: nat)
    requires Inv(t) && Can(t, Advance(p)) && t.procs[p].pc.ForkStart?
    ensures t.procs[p].pc.np < |t.procs|
    ensures var np, r := t.procs[p].pc.np, Next(t, Advance(p));
            && r.procs[np].st == RUNNABLE && r.procs[np].parent == p && r.procs[p].pc == User
            && r.procs[np].pid == t.procs[np].pid != 0 && r.procs[np].pid !in t.exited && r.procs[np].pid !in t.reaped
            && forall q :: 0 <= q < |t.procs| && q != np ==> t.procs[q].pid != t.procs[np].pid
  {
    assert Single(t, p);
    var np := t.procs[p].pc.np;
    assert Single(t, np);
    forall q | 0 <= q < |t.procs| && q != np ensures t.procs[q].pid != t.procs[np].pid { assert Pair(t, np, q); }
  }

  /** kill marks a process and wakes it if it sleeps; the scheduler runs whom it picks. */
  lemma OutsideRight(t: Table, a: Act)
    requires Can(t, a) && (a.Kill? || a.Dispatch? || a.Preempt? || a.Release?)
    ensures var r, x := Next(t, a), t.procs[a.p];
            && (a.Kill? ==> r.procs[a.p].killed && r.procs[a.p].st != SLEEPING)
            && (a.Dispatch? ==> r.procs[a.p].st == RUNNING)
            && (a.Dispatch? ==> r.procs[a.p].pc == if x.pc == Asleep then Waking else x.pc)
            && (a.Preempt? ==> r.procs[a.p].st == RUNNABLE) && (a.Release? ==> r.procs[a.p].lock == Open)
            && (!a.Kill? ==> r.procs[a.p].killed == x.killed) && (!a.Dispatch? ==> r.procs[a.p].pc == x.pc)
            && r.wl == t.wl && r.exited == t.exited && r.reaped == t.reaped
  {
    hide Go;
  }

  /** exit wakes init, for each child it passes on, and then its parent, and nobody else. */
  lemma WakesParent(t: Table, p: nat, q: nat)
    requires Inv(t) && Can(t, Advance(p)) && q < |t.procs| && q != p && t.procs[p].pc.Rouse?
    ensures var to := Target(t, p, t.procs[p].pc.i);
            && (Next(t, Advance(p)).procs[q].st != t.procs[q].st ==> q == to && t.procs[q].st == SLEEPING)
            && (q == to && t.procs[q].st == SLEEPING && t.procs[p].pc.q == q && !t.procs[p].pc.held ==>
                  Next(t, Advance(p)).procs[q].st == RUNNABLE)
  {
    assert Single(t, p) && Single(t, q);
  }

  /** A process that runs outside of a call can begin one when the locks it starts with are free. */
  lemma CallsBegin(t: Table, p: nat)
    requires p < |t.procs| && t.procs[p].st == RUNNING && t.procs[p].pc == User
    ensures t.wl == Open ==> Can(t, Wait(p)) && (p != INIT ==> Can(t, Exit(p)))
    ensures forall np: nat ::
              np < |t.procs| && t.procs[np].st == UNUSED && t.procs[np].lock == Open ==> Can(t, Fork(p, np))
    ensures var r := if t.wl == Open then Next(t, Wait(p)) else t;
            t.wl == Open ==> r.procs[p].pc == Scan(0, false) && r.wl == Held(p)
    ensures var r := if t.wl == Open && p != INIT then Next(t, Exit(p)) else t;
            t.wl == Open && p != INIT ==> r.procs[p].pc == Reparent(0) && r.wl == Held(p)
  {
  }

  predicate InWait(pc: Place) {
    || pc.Scan? || pc.ScanHeld? || pc.Leaving? || pc.Blocked? || pc.Sealed? || pc.Sinking? || pc.Asleep?
    || pc.Waking? || pc.Retry?
  }

  /** fork returns when the child has been started or could not be made, exit never, and wait when it has
      found a child to reap or reason to give up. */
  ghost predicate ReturnsRight(t: Table, a: Act)
    requires Can(t, a)
  {
    var pc, r := t.procs[a.p].pc, Next(t, a).procs[a.p].pc;
    && (Forks(pc) ==> Forks(r) || (r == User && (pc.ForkStart? || a.ForkFail?)))
    && (Exiting(pc) ==> Exiting(r))
    && (InWait(pc) ==> InWait(r) || (r == User && pc == Leaving))
    && (r == Leaving && pc != Leaving ==> pc.Scan? || pc.ScanHeld?)
    && (pc == User && r != User ==> a.Fork? || a.Exit? || a.Wait?)
  }

  lemma GoReturns(t: Table, a: Act)
    requires Can(t, a) && a.Advance? && FitsAt(t, a.p) && ForkOk(t, a.p)
    ensures ReturnsRight(t, a)
  {
    hide Only, Stay, CanAdvance;
  }

  lemma ActReturns(t: Table, a: Act)
    requires Can(t, a) && !a.Advance? && FitsAt(t, a.p) && ForkOk(t, a.p)
    ensures ReturnsRight(t, a)
  {
    hide Go, CanAdvance;
  }

  lemma CallsReturn(t: Table, a: Act)
    requires Inv(t) && Can(t, a)
    ensures ReturnsRight(t, a)
  {
    hide Inv, ReturnsRight;
    Parts(t, a.p);
    if a.Advance? { GoReturns(t, a); } else { ActReturns(t, a); }
  }

  // Every call ends

  /** The steps of exit from slot `i` of reparent on, at most. */
  function FromSlot(i: nat, n: nat): (k: nat)
    ensures k >= 2 * n + 7
    decreases n - i
  {
    if i >= n then 2 * n + 7 else FromSlot(i + 1, n) + 2 * n + 3
  }

  /** How many steps a process is from the end of its call, or from sleep, at most. */
  function Left(pc: Place, n: nat): (k: nat) {
    match pc
    case User | Asleep | Gone => 0
    case ForkStart(_) => 1
    case ForkParent(_) => 2
    case ForkWait(_) => 3
    case ForkGot(_) => 4
    case Reparent(i) => FromSlot(i, n)
    case Rouse(i, q, held) =>
      (if i < n then FromSlot(i + 1, n) else 3) + 1 + if q >= n then 0 else 2 * (n - q) + if held then 0 else 1
    case Dying => 3
    case Dead(w) => if w then 2 else 1
    case Scan(i, _) => if i < n then 4 + 2 * (n - i) else 4
    case ScanHeld(i) => if i < n then 3 + 2 * (n - i) else 4
    case Leaving | Sinking => 1
    case Sealed => 2
    case Blocked => 3
    case Retry => 5 + 2 * n
    case Waking => 6 + 2 * n
  }

  ghost predicate Nearer(t: Table, p: nat)
    requires Can(t, Advance(p))
  {
    Left(Next(t, Advance(p)).procs[p].pc, |t.procs|) < Left(t.procs[p].pc, |t.procs|)
  }

  /** Each of its steps brings a process closer to the end of its call, or to sleep. */
  lemma CallsEnd(t: Table, p: nat)
    requires Inv(t) && Can(t, Advance(p))
    ensures Nearer(t, p)
  {
    assert Single(t, p);
    EndForking(t, p);
    EndExit(t, p);
    EndRouse(t, p);
    EndWait(t, p);
    hide Nearer;
  }

  lemma EndForking(t: Table, p: nat)
    requires Can(t, Advance(p)) && FitsAt(t, p) && ForkOk(t, p)
    ensures Forks(t.procs[p].pc) ==> Nearer(t, p)
  {
    hide Only, Stay, GoRouse, GoExit, GoScan, GoChild, GoSleep;
  }

  lemma EndExit(t: Table, p: nat)
    requires Can(t, Advance(p)) && FitsAt(t, p) && ForkOk(t, p)
    ensures Exiting(t.procs[p].pc) && !t.procs[p].pc.Rouse? ==> Nearer(t, p)
  {
    hide Only, Stay, GoFork, GoRouse, GoScan, GoChild, GoSleep;
  }

  lemma EndRouse(t: Table, p: nat)
    requires Can(t, Advance(p)) && FitsAt(t, p) && ForkOk(t, p)
    ensures t.procs[p].pc.Rouse? ==> Nearer(t, p)
  {
    hide Only, Stay, GoFork, GoExit, GoScan, GoChild, GoSleep;
  }

  lemma EndWait(t: Table, p: nat)
    requires Can(t, Advance(p)) && FitsAt(t, p) && ForkOk(t, p)
    ensures !Forks(t.procs[p].pc) && !Exiting(t.procs[p].pc) ==> Nearer(t, p)
  {
    hide Only, Stay, GoFork, GoRouse, GoExit;
  }

  // The locks do not deadlock

  predicate InCall(pc: Place) { !pc.User? && !pc.Asleep? && !pc.Gone? }

  predicate OwnStep(a: Act) { a.Advance? || a.Dispatch? || a.Release? }

  /** A process that holds some process's lock can go on. */
  lemma HolderRuns(t: Table, q: nat, p: nat)
    requires Inv(t) && q < |t.procs| && p < |t.procs| && t.procs[q].lock == Held(p)
    ensures Can(t, Advance(p))
  {
    assert Pair(t, p, q) && Single(t, p);
  }

  ghost predicate NoLockTaken(t: Table) {
    forall q :: 0 <= q < |t.procs| ==> t.procs[q].lock == Open
  }

  /** So can the holder of wait_lock, when no process's lock is taken. */
  lemma WaiterRuns(t: Table)
    requires Inv(t) && t.wl.Held? && NoLockTaken(t)
    ensures Can(t, Advance(t.wl.who))
  {
    var p := t.wl.who;
    assert Single(t, p);
    assert Pair(t, p, p);
  }

  /** And with wait_lock free too, any process inside a call. */
  lemma FreeRuns(t: Table, p: nat) returns (a: Act)
    requires Inv(t) && t.wl == Open && NoLockTaken(t) && p < |t.procs| && InCall(t.procs[p].pc)
    ensures Can(t, a) && OwnStep(a)
  {
    assert Single(t, p);
    assert Pair(t, p, p);
    return if t.procs[p].st == RUNNABLE then Dispatch(p) else Advance(p);
  }

  /** While a process is inside a call, some step other than a kill or a preemption can be taken. */
  lemma NoDeadlock(t: Table, p: nat) returns (a: Act)
    requires Inv(t) && p < |t.procs| && InCall(t.procs[p].pc)
    ensures Can(t, a) && OwnStep(a)
  {
    hide Inv;
    if q: nat :| q < |t.procs| && t.procs[q].lock == Sched {
      return Release(q);
    } else if q: nat :| q < |t.procs| && t.procs[q].lock.Held? {
      Parts(t, q);
      HolderRuns(t, q, t.procs[q].lock.who);
      return Advance(t.procs[q].lock.who);
    } else if t.wl.Held? {
      WaiterRuns(t);
      return Advance(t.wl.who);
    } else {
      assert t.wl == Open by { WaitLockShape(t); }
      a := FreeRuns(t, p);
    }
  }

  lemma WaitLockShape(t: Table)
    requires Inv(t)
    ensures t.wl != Sched
  {
  }

  /** In every state of every run. */
  lemma RunProgress(n: nat, tables: seq<Table>, acts: seq<Act>, k: nat, p: nat)
    requires n > INIT && Behaviour(tables, acts) && tables[0] == Boot(n) && k < |tables|
    requires p < |tables[k].procs| && InCall(tables[k].procs[p].pc)
    ensures exists a :: OwnStep(a) && Can(tables[k], a)
    ensures forall q: nat :: Can(tables[k], Advance(q)) ==> Nearer(tables[k], q)
  {
    hide Inv, Can, Nearer, Behaviour, Boot;
    BootInv(n);
    BehaviourInv(tables, acts, k);
    var a := NoDeadlock(tables[k], p);
    forall q: nat | Can(tables[k], Advance(q)) ensures Nearer(tables[k], q) { CallsEnd(tables[k], q); }
  }
}
