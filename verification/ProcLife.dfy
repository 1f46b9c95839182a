/** fork, exit and wait (kernel/proc.c), as every interleaving of the steps that processes, the
    schedulers and kill take between lock operations. */
module ProcLife {
  import opened SpinLock

  datatype PState = UNUSED | USED | SLEEPING | RUNNABLE | RUNNING | ZOMBIE

  /** Where a process is. W stands for wait_lock; "own" for its own lock. */
  datatype Place =
    | User                                    // none: outside, or not started
    | ForkGot(np: nat)                        // np's lock: the slot is USED
    | ForkWait(np: nat)                       // none: about to acquire W
    | ForkParent(np: nat)                     // W: np has its parent
    | ForkStart(np: nat)                      // none: about to make np RUNNABLE
    | Reparent(i: nat)                        // W: exit has come to slot i
    | Rouse(i: nat, q: nat, held: bool)       // W, and q's lock if held: wakeup of init after giving it
                                              // child i, or of the parent if i is past the table
    | Dying                                   // W: about to become a zombie
    | Dead(w: bool)                           // own, and W if w
    | Gone                                    // none
    | Scan(i: nat, kids: bool)                // W: wait has come to slot i
    | ScanHeld(i: nat)                        // W and the lock of child i
    | Leaving                                 // W: about to return
    | Blocked                                // W: no zombie among the children, about to sleep
    | Sealed                                 // W and own
    | Sinking                                // own: W released, about to mark itself asleep
    | Asleep                                 // none
    | Waking                                 // own
    | Retry                                  // none: about to reacquire W

  datatype Process = Process(st: PState, parent: int, pid: nat, chan: int, killed: bool, lock: Lock, pc: Place)

  const NOBODY := -1
  const INIT := 0

  /** The process table, wait_lock, the next pid, and the pids that exited and that wait returned. */
  datatype Table = Table(procs: seq<Process>, wl: Lock, nextpid: nat, exited: set<nat>, reaped: seq<nat>)

  datatype Act =
    | Fork(p: nat, np: nat)     // allocproc takes slot np
    | ForkFail(p: nat)          // no memory for the child
    | Exit(p: nat)
    | Wait(p: nat)
    | Advance(p: nat)
    | CopyFail(p: nat)          // wait cannot store the status
    | Preempt(p: nat)
    | Dispatch(p: nat)
    | Release(p: nat)
    | Kill(p: nat)

  predicate Exiting(pc: Place) { pc.Reparent? || pc.Rouse? || pc.Dying? || pc.Dead? || pc.Gone? }

  predicate Forks(pc: Place) { pc.ForkGot? || pc.ForkWait? || pc.ForkParent? || pc.ForkStart? }

  predicate CanYield(pc: Place) { pc.User? || pc.ForkWait? || pc.ForkStart? || pc.Retry? }

  function FreeProc(x: Process): Process {
    Process(UNUSED, NOBODY, 0, NOBODY, false, x.lock, User)
  }

  function Target(t: Table, p: nat, i: nat): int
    requires p < |t.procs|
  {
    if i < |t.procs| then INIT else t.procs[p].parent
  }

  predicate CanAdvance(t: Table, p: nat)
    requires p < |t.procs|
  {
    var n := |t.procs|;
    var x := t.procs[p];
    x.st == RUNNING &&
    match x.pc {
      case ForkWait(_) => t.wl == Open
      case Retry => t.wl == Open
      case ForkStart(np) => np < n && t.procs[np].lock == Open
      case Rouse(_, q, held) => !held && q < n && q != p ==> t.procs[q].lock == Open
      case Dying => x.lock == Open
      case Scan(i, kids) =>
        if i < n then t.procs[i].parent == p ==> t.procs[i].lock == Open else kids ==> x.lock == Open
      case Blocked => x.lock == Open
      case User | Asleep | Gone | Dead(_) => false
      case _ => true
    }
  }

  predicate Can(t: Table, a: Act) {
    && a.p < |t.procs|
    && var x := t.procs[a.p];
       match a {
         case Fork(p, np) =>
           && x.st == RUNNING && x.pc == User
           && np < |t.procs| && t.procs[np].st == UNUSED && t.procs[np].lock == Open
         case ForkFail(p) => x.st == RUNNING && x.pc.ForkGot?
         case Exit(p) => x.st == RUNNING && x.pc == User && p != INIT && t.wl == Open
         case Wait(p) => x.st == RUNNING && x.pc == User && t.wl == Open
         case Advance(p) => CanAdvance(t, p) || x.pc.Dead?
         case CopyFail(p) => x.st == RUNNING && x.pc.ScanHeld? && x.pc.i < |t.procs| && t.procs[x.pc.i].st == ZOMBIE
         case Preempt(p) => x.st == RUNNING && x.lock == Open && CanYield(x.pc)
         case Dispatch(p) => x.st == RUNNABLE && x.lock == Open
         case Release(p) => x.lock == Sched
         case Kill(p) => x.lock == Open && x.pid != 0
       }
  }

  function Set(t: Table, p: nat, x: Process): (r: Table)
    requires p < |t.procs|
    ensures |r.procs| == |t.procs|
  {
    t.(procs := t.procs[p := x])
  }

  function Goto(t: Table, p: nat, pc: Place): (r: Table)
    requires p < |t.procs|
    ensures |r.procs| == |t.procs|
  {
    Set(t, p, t.procs[p].(pc := pc))
  }

  /** Only processes p and q have changed. */
  ghost predicate Only(t: Table, r: Table, p: nat, q: nat) {
    && |r.procs| == |t.procs|
    && forall c :: 0 <= c < |t.procs| && c != p && c != q ==> r.procs[c] == t.procs[c]
  }

  /** No process other than p has moved. */
  ghost predicate Stay(t: Table, r: Table, p: nat) {
    |r.procs| == |t.procs| && forall c :: 0 <= c < |t.procs| && c != p ==> r.procs[c].pc == t.procs[c].pc
  }

  function GoFork(t: Table, p: nat): (r: Table)
    requires p < |t.procs| && Forks(t.procs[p].pc)
    ensures |r.procs| == |t.procs| && Only(t, r, p, t.procs[p].pc.np) && Stay(t, r, p)
  {
    var n := |t.procs|;
    match t.procs[p].pc {
      case ForkGot(np) => if np < n then Goto(Set(t, np, t.procs[np].(lock := Open)), p, ForkWait(np)) else t
      case ForkWait(np) =>
        if np < n then Goto(Set(t, np, t.procs[np].(parent := p)), p, ForkParent(np)).(wl := Held(p)) else t
      case ForkParent(np) => Goto(t, p, ForkStart(np)).(wl := Open)
      case ForkStart(np) => if np < n then Goto(Set(t, np, t.procs[np].(st := RUNNABLE)), p, User) else t
    }
  }

  function GoExit(t: Table, p: nat): (r: Table)
    requires p < |t.procs|
    ensures |r.procs| == |t.procs| && Stay(t, r, p)
    ensures Only(t, r, p, if t.procs[p].pc.Reparent? then t.procs[p].pc.i else p)
  {
    var n := |t.procs|;
    var x := t.procs[p];
    match x.pc {
      case Reparent(i) =>
        if i >= n then Goto(t, p, Rouse(n, 0, false))
        else if t.procs[i].parent == p then Goto(Set(t, i, t.procs[i].(parent := INIT)), p, Rouse(i, 0, false))
        else Goto(t, p, Reparent(i + 1))
      case Dying => Set(t, p, x.(st := ZOMBIE, lock := Held(p), pc := Dead(true))).(exited := t.exited + {x.pid})
      case Dead(w) => if w then Goto(t, p, Dead(false)).(wl := Open) else Set(t, p, x.(lock := Sched, pc := Gone))
      case _ => t
    }
  }

  /** wakeup, called by exit */
  function GoRouse(t: Table, p: nat): (r: Table)
    requires p < |t.procs| && t.procs[p].pc.Rouse?
    ensures |r.procs| == |t.procs| && Only(t, r, p, t.procs[p].pc.q) && Stay(t, r, p)
  {
    var n := |t.procs|;
    var Rouse(i, q, held) := t.procs[p].pc;
    if held then Goto(if q < n then Set(t, q, t.procs[q].(lock := Open)) else t, p, Rouse(i, q + 1, false))
    else if q >= n then Goto(t, p, if i < n then Reparent(i + 1) else Dying)
    else if q == p then Goto(t, p, Rouse(i, q + 1, false))
    else
      var y := t.procs[q];
      var st := if y.st == SLEEPING && y.chan == Target(t, p, i) then RUNNABLE else y.st;
      Goto(Set(t, q, y.(lock := Held(p), st := st)), p, Rouse(i, q, true))
  }

  /** wait's loop */
  function GoScan(t: Table, p: nat): (r: Table)
    requires p < |t.procs| && t.procs[p].pc.Scan?
    ensures |r.procs| == |t.procs| && Only(t, r, p, t.procs[p].pc.i) && Stay(t, r, p)
  {
    var Scan(i, kids) := t.procs[p].pc;
    if i >= |t.procs| then Goto(t, p, if !kids || t.procs[p].killed then Leaving else Blocked)
    else if t.procs[i].parent == p then Goto(Set(t, i, t.procs[i].(lock := Held(p))), p, ScanHeld(i))
    else Goto(t, p, Scan(i + 1, kids))
  }

  /** wait, with the lock of a child */
  function GoChild(t: Table, p: nat): (r: Table)
    requires p < |t.procs| && t.procs[p].pc.ScanHeld?
    ensures |r.procs| == |t.procs| && Only(t, r, p, t.procs[p].pc.i)
  {
    var i := t.procs[p].pc.i;
    if i >= |t.procs| then t
    else
      var y := t.procs[i];
      if y.st == ZOMBIE then Goto(Set(t, i, FreeProc(y).(lock := Open)), p, Leaving).(reaped := t.reaped + [y.pid])
      else Goto(Set(t, i, y.(lock := Open)), p, Scan(i + 1, true))
  }

  /** The end of wait, and sleep(p, &wait_lock) */
  function GoSleep(t: Table, p: nat): (r: Table)
    requires p < |t.procs|
    ensures |r.procs| == |t.procs| && Only(t, r, p, p) && Stay(t, r, p)
  {
    var x := t.procs[p];
    match x.pc {
      case Leaving => Goto(t, p, User).(wl := Open)
      case Blocked => Set(t, p, x.(pc := Sealed, lock := Held(p)))
      case Sealed => Goto(t, p, Sinking).(wl := Open)
      case Sinking => Set(t, p, x.(pc := Asleep, chan := p, st := SLEEPING, lock := Sched))
      case Waking => Set(t, p, x.(pc := Retry, chan := NOBODY, lock := Open))
      case Retry => Goto(t, p, Scan(0, false)).(wl := Held(p))
      case _ => t
    }
  }

  function Go(t: Table, p: nat): (r: Table)
    requires p < |t.procs|
    ensures |r.procs| == |t.procs|
  {
    match t.procs[p].pc {
      case ForkGot(_) | ForkWait(_) | ForkParent(_) | ForkStart(_) => GoFork(t, p)
      case Reparent(_) | Dying | Dead(_) | Gone => GoExit(t, p)
      case Rouse(_, _, _) => GoRouse(t, p)
      case Scan(_, _) => GoScan(t, p)
      case ScanHeld(_) => GoChild(t, p)
      case _ => GoSleep(t, p)
    }
  }

  function Next(t: Table, a: Act): (r: Table)
    requires Can(t, a)
    ensures |r.procs| == |t.procs|
  {
    var p := a.p;
    var x := t.procs[p];
    match a {
      case Fork(_, np) =>
        var y := t.procs[np].(st := USED, pid := t.nextpid, lock := Held(p));
        Goto(Set(t, np, y), p, ForkGot(np)).(nextpid := t.nextpid + 1)
      case ForkFail(_) =>
        if x.pc.np < |t.procs| then Goto(Set(t, x.pc.np, FreeProc(t.procs[x.pc.np]).(lock := Open)), p, User) else t
      case Exit(_) => Goto(t, p, Reparent(0)).(wl := Held(p))
      case Wait(_) => Goto(t, p, Scan(0, false)).(wl := Held(p))
      case Advance(_) => Go(t, p)
      case CopyFail(_) => Goto(Set(t, x.pc.i, t.procs[x.pc.i].(lock := Open)), p, Leaving)
      case Preempt(_) => Set(t, p, x.(st := RUNNABLE, lock := Sched))
      case Dispatch(_) =>
        Set(t, p, if x.pc == Asleep then x.(st := RUNNING, lock := Held(p), pc := Waking) else x.(st := RUNNING))
      case Release(_) => Set(t, p, x.(lock := Open))
      case Kill(_) => Set(t, p, x.(killed := true, st := if x.st == SLEEPING then RUNNABLE else x.st))
    }
  }

  /** After userinit: init is runnable, everything else unused. */
  function Boot(n: nat): (t: Table)
  {
    var init := Process(RUNNABLE, NOBODY, 1, NOBODY, false, Open, User);
    var unused := Process(UNUSED, NOBODY, 0, NOBODY, false, Open, User);
    Table(seq(n, i => if i == INIT then init else unused), Open, 2, {}, [])
  }
}
