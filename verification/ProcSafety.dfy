/** What holds in every state of every run of fork, exit and wait. */
module ProcSafety {
  import opened SpinLock
  import opened ProcLife

  // What the code promises

  /** No process has a zombie or unused parent. */
  ghost predicate ParentsLive(t: Table) {
    forall c :: 0 <= c < |t.procs| && t.procs[c].parent != NOBODY ==>
      0 <= t.procs[c].parent < |t.procs| && t.procs[t.procs[c].parent].st !in {UNUSED, ZOMBIE}
  }

  /** Every process but init that has been started, zombies included, has a parent that can reap it. */
  ghost predicate NoOrphans(t: Table) {
    forall c :: 0 <= c < |t.procs| && c != INIT && t.procs[c].st !in {UNUSED, USED} ==>
      0 <= t.procs[c].parent < |t.procs| && t.procs[t.procs[c].parent].st !in {UNUSED, USED, ZOMBIE}
  }

  /** Asleep in wait, or past the point of no return on the way there. */
  predicate Committed(x: Process, p: nat) {
    x.pc.Sinking? || (x.st == SLEEPING && x.chan == p)
  }

  /** Nobody sleeps in wait with a zombie child. */
  ghost predicate NobodyWaitsInVain(t: Table) {
    t.wl == Open ==>
      forall p, c :: 0 <= p < |t.procs| && 0 <= c < |t.procs| && t.procs[c].parent == p && t.procs[c].st == ZOMBIE ==>
        !Committed(t.procs[p], p)
  }

  /** Nor without a child that could wake them. */
  ghost predicate SleepersHaveChildren(t: Table) {
    forall p :: 0 <= p < |t.procs| && Committed(t.procs[p], p) ==> HasChild(t, p)
  }

  /** wait returns the pid of a process that exited, and of each at most once. */
  ghost predicate ReapedOnce(t: Table) {
    && (forall i :: 0 <= i < |t.reaped| ==> t.reaped[i] in t.exited)
    && (forall i, j :: 0 <= i < j < |t.reaped| ==> t.reaped[i] != t.reaped[j])
  }

  // The invariant, one process or one pair of processes at a time

  predicate HasWait(pc: Place) {
    || pc.ForkParent? || pc.Reparent? || pc.Rouse? || pc.Dying? || (pc.Dead? && pc.w)
    || pc.Scan? || pc.ScanHeld? || pc.Leaving? || pc.Blocked? || pc.Sealed?
  }

  ghost predicate WaitLock(t: Table, p: nat)
    requires p < |t.procs|
  {
    HasWait(t.procs[p].pc) <==> t.wl == Held(p)
  }

  predicate Has(pc: Place, p: nat, q: nat) {
    if p == q then pc.Sealed? || pc.Sinking? || pc.Waking? || pc.Dead?
    else pc == ForkGot(q) || pc == ScanHeld(q) || (pc.Rouse? && pc.held && pc.q == q)
  }

  ghost predicate LockPair(t: Table, p: nat, q: nat)
    requires p < |t.procs| && q < |t.procs|
  {
    t.procs[q].lock == Held(p) <==> Has(t.procs[p].pc, p, q)
  }

  /** The fields of process p fit where it is. */
  ghost predicate Fits(x: Process, p: nat, n: nat) {
    && (x.chan == if x.pc.Asleep? || x.pc.Waking? then p else NOBODY)
    && (x.st in {UNUSED, USED} ==> x.pc == User)
    && (x.st == UNUSED ==> x.parent == NOBODY)
    && (x.st == SLEEPING ==> x.pc == Asleep)
    && (x.st == RUNNABLE ==> x.pc == Asleep || CanYield(x.pc))
    && (x.st == ZOMBIE <==> x.pc.Dead? || x.pc.Gone?)
    && (x.pc == Asleep ==> x.st in {SLEEPING, RUNNABLE})
    && (x.pc.Rouse? && x.pc.held ==> x.pc.q < n && x.pc.q != p)
    && (x.pc.ScanHeld? ==> x.pc.i < n && x.pc.i != p)
    && (p == INIT ==> x.parent == NOBODY && x.st !in {UNUSED, USED, ZOMBIE} && !Exiting(x.pc))
    && x.parent != p && (x.parent == NOBODY || 0 <= x.parent < n)
    && (x.st !in {UNUSED, USED} && p != INIT ==> x.parent != NOBODY)
    && (x.lock.Held? ==> x.lock.who < n)
  }

  ghost predicate FitsAt(t: Table, p: nat)
    requires p < |t.procs|
  {
    Fits(t.procs[p], p, |t.procs|)
  }

  /** The child being made has its parent. */
  predicate Named(pc: Place) { pc.ForkParent? || pc.ForkStart? }

  /** A child being made is USED, by one process only, and has its parent before it can run. */
  ghost predicate ForkOk(t: Table, p: nat)
    requires p < |t.procs|
  {
    var x := t.procs[p];
    Forks(x.pc) ==>
      && x.pc.np < |t.procs| && x.pc.np != p && t.procs[x.pc.np].st == USED
      && t.procs[x.pc.np].parent == if Named(x.pc) then p else NOBODY
  }

  ghost predicate ForkPair(t: Table, p: nat, q: nat)
    requires p < |t.procs| && q < |t.procs|
  {
    Forks(t.procs[p].pc) && Forks(t.procs[q].pc) && t.procs[p].pc.np == t.procs[q].pc.np ==> p == q
  }

  /** Where wait has seen a child. */
  predicate SeenKid(pc: Place) {
    (pc.Scan? && pc.kids) || pc.Blocked? || pc.Sealed? || pc.Sinking? || pc.Asleep?
  }

  ghost predicate HasChild(t: Table, p: nat) {
    exists c :: 0 <= c < |t.procs| && t.procs[c].parent == p
  }

  ghost predicate KidOk(t: Table, p: nat)
    requires p < |t.procs|
  {
    SeenKid(t.procs[p].pc) ==> HasChild(t, p)
  }

  /** A parent is live, and an exiting one has passed on the children that it has come past. */
  ghost predicate Kin(t: Table, p: nat, c: nat)
    requires p < |t.procs| && c < |t.procs|
  {
    var x := t.procs[p];
    && (x.pc == ScanHeld(c) ==> t.procs[c].parent == p)
    && (t.procs[c].parent == p ==>
      && x.st !in {UNUSED, USED, ZOMBIE}
      && (x.pc.Reparent? ==> x.pc.i <= c)
      && (x.pc.Rouse? ==> x.pc.i < c)
      && !x.pc.Dying?
      && (x.pc.Scan? && c < x.pc.i ==> x.pc.kids && t.procs[c].st != ZOMBIE)
      && (x.pc.ScanHeld? && c < x.pc.i ==> t.procs[c].st != ZOMBIE)
      && (x.pc.Blocked? || x.pc.Sealed? ==> t.procs[c].st != ZOMBIE))
  }

  /** The holder of wait_lock is in a wakeup of p that has still to come to it. */
  ghost predicate WillWake(t: Table, p: nat) {
    && t.wl.Held? && t.wl.who < |t.procs|
    && var pc := t.procs[t.wl.who].pc;
       pc.Rouse? && Target(t, t.wl.who, pc.i) == p && if pc.held then pc.q < p else pc.q <= p
  }

  predicate Ending(t: Table, x: Process) {
    x.st == ZOMBIE || x.pc.Dying? || (x.pc.Rouse? && x.pc.i >= |t.procs|)
  }

  ghost predicate Vigil(t: Table, p: nat, c: nat)
    requires p < |t.procs| && c < |t.procs|
  {
    Committed(t.procs[p], p) && t.procs[c].parent == p && Ending(t, t.procs[c]) ==> WillWake(t, p)
  }

  /** A pid in use has not been reaped, and a zombie's alone has exited. */
  ghost predicate PidOk(t: Table, p: nat)
    requires p < |t.procs|
  {
    var x := t.procs[p];
    && (x.st == UNUSED <==> x.pid == 0)
    && x.pid < t.nextpid
    && (x.pid != 0 ==> x.pid !in t.reaped && (x.pid in t.exited <==> x.st == ZOMBIE))
  }

  ghost predicate PidPair(t: Table, p: nat, q: nat)
    requires p < |t.procs| && q < |t.procs|
  {
    t.procs[p].pid != 0 && t.procs[p].pid == t.procs[q].pid ==> p == q
  }

  ghost predicate Ledger(t: Table) {
    && ReapedOnce(t) && 0 < t.nextpid
    && (forall i :: i in t.exited ==> 0 < i < t.nextpid)
  }

  ghost predicate Pair(t: Table, p: nat, q: nat)
    requires p < |t.procs| && q < |t.procs|
  {
    LockPair(t, p, q) && ForkPair(t, p, q) && Kin(t, p, q) && Vigil(t, p, q) && PidPair(t, p, q)
  }

  ghost predicate Single(t: Table, p: nat)
    requires p < |t.procs|
  {
    && WaitLock(t, p) && FitsAt(t, p) && PidOk(t, p) && ForkOk(t, p) && KidOk(t, p)
  }

  ghost predicate Inv(t: Table) {
    && |t.procs| > INIT && Ledger(t) && t.wl != Sched && (t.wl.Held? ==> t.wl.who < |t.procs|)
    && (forall p :: 0 <= p < |t.procs| ==> Single(t, p))
    && (forall p, q :: 0 <= p < |t.procs| && 0 <= q < |t.procs| ==> Pair(t, p, q))
  }

  lemma BootInv(n: nat)
    requires n > INIT
    ensures Inv(Boot(n))
  {
    var t := Boot(n);
    forall p | 0 <= p < n ensures Single(t, p) {
    }
    forall p, q | 0 <= p < n && 0 <= q < n ensures Pair(t, p, q) {
    }
  }

  /** The process, other than the one that acts, that an action may change. */
  function Other(t: Table, a: Act): (q: nat)
    requires Can(t, a)
    ensures q < |t.procs|
  {
    var x := t.procs[a.p];
    var q :=
      if a.Fork? then a.np
      else if Forks(x.pc) then x.pc.np
      else if x.pc.Reparent? || x.pc.Scan? || x.pc.ScanHeld? then x.pc.i
      else if x.pc.Rouse? then x.pc.q
      else a.p;
    if q < |t.procs| then q else a.p
  }

  /** The process that an action frees, if any. */
  predicate Frees(t: Table, a: Act, p: nat)
    requires Can(t, a) && p < |t.procs|
  {
    p == Other(t, a) && (a.ForkFail? || (a.Advance? && t.procs[a.p].pc.ScanHeld? && t.procs[p].st == ZOMBIE))
  }

  /** What an action leaves alone, and what it can do to where another process is. */
  lemma OthersSame(t: Table, a: Act, c: nat)
    requires Can(t, a) && c < |t.procs| && c != a.p
    ensures c != Other(t, a) ==> Next(t, a).procs[c] == t.procs[c]
    ensures Next(t, a).procs[c].pc == if Frees(t, a, c) then User else t.procs[c].pc
  {
    hide CanAdvance, GoFork, GoExit, GoRouse, GoScan, GoSleep;
  }

  ghost predicate FitsBefore(t: Table, a: Act)
    requires Can(t, a)
  {
    FitsAt(t, a.p) && FitsAt(t, Other(t, a)) && ForkOk(t, a.p)
  }

  /** The actions in groups, to prove each on its own. */
  datatype Group = Outside | Births | Forking | Exits | Rousing | Scans | Children | Sleeps

  function GroupOf(t: Table, a: Act): Group
    requires Can(t, a)
  {
    var pc := t.procs[a.p].pc;
    match a {
      case Preempt(_) | Dispatch(_) | Release(_) | Kill(_) => Outside
      case Fork(_, _) | ForkFail(_) => Births
      case Exit(_) => Exits
      case Wait(_) => Scans
      case CopyFail(_) => Children
      case Advance(_) =>
        match pc {
          case ForkGot(_) | ForkWait(_) | ForkParent(_) | ForkStart(_) => Forking
          case Reparent(_) | Dying | Dead(_) | Gone => Exits
          case Rouse(_, _, _) => Rousing
          case Scan(_, _) => Scans
          case ScanHeld(_) => Children
          case _ => Sleeps
        }
    }
  }

  // What one action does to each process

  /** Who is making which child. */
  ghost predicate ForksMove(t: Table, a: Act, p: nat)
    requires Can(t, a) && p < |t.procs|
  {
    var pc := Next(t, a).procs[p].pc;
    if p == a.p && a.Fork? then pc == ForkGot(a.np)
    else if p == a.p && (a.ForkFail? || (a.Advance? && t.procs[p].pc.ForkStart?)) then !Forks(pc)
    else
      && (Forks(pc) <==> Forks(t.procs[p].pc)) && (Forks(pc) ==> pc.np == t.procs[p].pc.np)
      && (Named(pc) <==> Named(t.procs[p].pc) || (p == a.p && a.Advance? && t.procs[p].pc.ForkWait?))
  }

  /** When a slot gets a pid and when it loses it. */
  ghost predicate PidMove(t: Table, a: Act, p: nat)
    requires Can(t, a) && p < |t.procs|
  {
    Next(t, a).procs[p].pid ==
    if a.Fork? && p == a.np then t.nextpid else if Frees(t, a, p) then 0 else t.procs[p].pid
  }

  /** How a process comes to be used, to be ready to run, to be a zombie, and to be unused again. */
  ghost predicate StateMove(t: Table, a: Act, p: nat)
    requires Can(t, a) && p < |t.procs|
  {
    var st := Next(t, a).procs[p].st;
    if Frees(t, a, p) then st == UNUSED
    else if a.Fork? && p == a.np then st == USED
    else if a.Advance? && p == a.p && t.procs[p].pc.Dying? then st == ZOMBIE
    else if a.Advance? && t.procs[a.p].pc.ForkStart? && p == t.procs[a.p].pc.np then st == RUNNABLE
    else if p != a.p && st == SLEEPING then t.procs[p].st == SLEEPING
    else st == t.procs[p].st || (st in {RUNNING, RUNNABLE, SLEEPING} && t.procs[p].st in {RUNNING, RUNNABLE, SLEEPING})
  }

  /** When a process gets a parent, another one, and none. */
  ghost predicate ParentMove(t: Table, a: Act, c: nat)
    requires Can(t, a) && c < |t.procs|
  {
    Next(t, a).procs[c].parent ==
    if Frees(t, a, c) then NOBODY
    else if a.Advance? && t.procs[a.p].pc == ForkWait(c) then a.p
    else if a.Advance? && t.procs[a.p].pc == Reparent(c) && t.procs[c].parent == a.p then INIT
    else t.procs[c].parent
  }

  ghost predicate Moves(t: Table, a: Act, p: nat)
    requires Can(t, a) && p < |t.procs|
  {
    PidMove(t, a, p) && StateMove(t, a, p) && ParentMove(t, a, p)
  }

  lemma MovesOutside(t: Table, a: Act, p: nat)
    requires Can(t, a) && GroupOf(t, a) == Outside && p < |t.procs| && FitsAt(t, a.p) && ForkOk(t, a.p)
    ensures Moves(t, a, p)
  {
    hide Go;
  }

  lemma MovesBirths(t: Table, a: Act, p: nat)
    requires Can(t, a) && GroupOf(t, a) == Births && p < |t.procs| && FitsAt(t, a.p) && ForkOk(t, a.p)
    ensures Moves(t, a, p)
  {
    hide Go;
  }

  lemma MovesForking(t: Table, a: Act, p: nat)
    requires Can(t, a) && GroupOf(t, a) == Forking && p < |t.procs| && FitsAt(t, a.p) && ForkOk(t, a.p)
    ensures Moves(t, a, p)
  {
    hide Only, Stay, GoRouse, GoExit, GoScan, GoChild, GoSleep;
  }

  lemma MovesExits(t: Table, a: Act, p: nat)
    requires Can(t, a) && GroupOf(t, a) == Exits && p < |t.procs| && FitsAt(t, a.p) && ForkOk(t, a.p)
    ensures Moves(t, a, p)
  {
    hide Only, Stay, GoFork, GoRouse, GoScan, GoChild, GoSleep;
  }

  lemma MovesRousing(t: Table, a: Act, p: nat)
    requires Can(t, a) && GroupOf(t, a) == Rousing && p < |t.procs| && FitsAt(t, a.p) && ForkOk(t, a.p)
    ensures Moves(t, a, p)
  {
    hide Only, Stay, GoFork, GoExit, GoScan, GoChild, GoSleep;
  }

  lemma MovesScans(t: Table, a: Act, p: nat)
    requires Can(t, a) && GroupOf(t, a) == Scans && p < |t.procs| && FitsAt(t, a.p) && ForkOk(t, a.p)
    ensures Moves(t, a, p)
  {
    hide Only, Stay, GoFork, GoRouse, GoExit, GoChild, GoSleep;
  }

  lemma MovesChildren(t: Table, a: Act, p: nat)
    requires Can(t, a) && GroupOf(t, a) == Children && p < |t.procs| && FitsAt(t, a.p) && ForkOk(t, a.p)
    ensures Moves(t, a, p)
  {
    hide Only, Stay, GoFork, GoRouse, GoExit, GoScan, GoSleep;
  }

  lemma MovesSleeps(t: Table, a: Act, p: nat)
    requires Can(t, a) && GroupOf(t, a) == Sleeps && p < |t.procs| && FitsAt(t, a.p) && ForkOk(t, a.p)
    ensures Moves(t, a, p)
  {
    hide Only, Stay, GoFork, GoRouse, GoExit, GoScan, GoChild;
  }

  lemma NextMoves(t: Table, a: Act, p: nat)
    requires Can(t, a) && p < |t.procs| && FitsAt(t, a.p) && ForkOk(t, a.p)
    ensures Moves(t, a, p)
  {
    hide Next, Moves, Fits, ForkOk;
    match GroupOf(t, a) {
      case Outside => MovesOutside(t, a, p);
      case Births => MovesBirths(t, a, p);
      case Forking => MovesForking(t, a, p);
      case Exits => MovesExits(t, a, p);
      case Rousing => MovesRousing(t, a, p);
      case Scans => MovesScans(t, a, p);
      case Children => MovesChildren(t, a, p);
      case Sleeps => MovesSleeps(t, a, p);
    }
  }

  // What it does to where the process that acts is

  /** wait_lock passes only between the process that acts and nobody. */
  ghost predicate WaitMove(t: Table, a: Act)
    requires Can(t, a)
  {
    && WaitLock(Next(t, a), a.p)
    && (Next(t, a).wl == t.wl || (t.wl in {Open, Held(a.p)} && Next(t, a).wl in {Open, Held(a.p)}))
  }

  /** Who comes to be about to become a zombie, and who to be about to sleep. */
  ghost predicate EndMove(t: Table, a: Act)
    requires Can(t, a)
  {
    var r, x := Next(t, a), t.procs[a.p];
    && (Ending(r, r.procs[a.p]) ==> Ending(t, x) || (a.Advance? && x.pc.Reparent?))
    && (Committed(r.procs[a.p], a.p) ==> Committed(x, a.p) || (a.Advance? && x.pc.Sealed?))
    && (SeenKid(r.procs[a.p].pc) && !SeenKid(x.pc) ==>
          a.Advance? && x.pc.ScanHeld? && x.pc.i < |t.procs| && t.procs[x.pc.i].st != ZOMBIE)
  }

  ghost predicate Turn(t: Table, a: Act)
    requires Can(t, a)
  {
    ForksMove(t, a, a.p) && WaitMove(t, a) && EndMove(t, a)
  }

  lemma TurnOutside(t: Table, a: Act)
    requires Can(t, a) && GroupOf(t, a) == Outside && WaitLock(t, a.p) && FitsAt(t, a.p) && ForkOk(t, a.p)
    ensures Turn(t, a)
  {
    hide Go;
  }

  lemma TurnBirths(t: Table, a: Act)
    requires Can(t, a) && GroupOf(t, a) == Births && WaitLock(t, a.p) && FitsAt(t, a.p) && ForkOk(t, a.p)
    ensures Turn(t, a)
  {
    hide Go;
  }

  lemma TurnForking(t: Table, a: Act)
    requires Can(t, a) && GroupOf(t, a) == Forking && WaitLock(t, a.p) && FitsAt(t, a.p) && ForkOk(t, a.p)
    ensures Turn(t, a)
  {
    hide Only, Stay, GoRouse, GoExit, GoScan, GoChild, GoSleep;
  }

  lemma TurnExits(t: Table, a: Act)
    requires Can(t, a) && GroupOf(t, a) == Exits && WaitLock(t, a.p) && FitsAt(t, a.p) && ForkOk(t, a.p)
    ensures Turn(t, a)
  {
    hide Only, Stay, GoFork, GoRouse, GoScan, GoChild, GoSleep;
  }

  lemma TurnRousing(t: Table, a: Act)
    requires Can(t, a) && GroupOf(t, a) == Rousing && WaitLock(t, a.p) && FitsAt(t, a.p) && ForkOk(t, a.p)
    ensures Turn(t, a)
  {
    hide Only, Stay, GoFork, GoExit, GoScan, GoChild, GoSleep;
  }

  lemma TurnScans(t: Table, a: Act)
    requires Can(t, a) && GroupOf(t, a) == Scans && WaitLock(t, a.p) && FitsAt(t, a.p) && ForkOk(t, a.p)
    ensures Turn(t, a)
  {
    hide Only, Stay, GoFork, GoRouse, GoExit, GoChild, GoSleep;
  }

  lemma TurnChildren(t: Table, a: Act)
    requires Can(t, a) && GroupOf(t, a) == Children && WaitLock(t, a.p) && FitsAt(t, a.p) && ForkOk(t, a.p)
    ensures Turn(t, a)
  {
    hide Only, Stay, GoFork, GoRouse, GoExit, GoScan, GoSleep;
  }

  lemma TurnSleeps(t: Table, a: Act)
    requires Can(t, a) && GroupOf(t, a) == Sleeps && WaitLock(t, a.p) && FitsAt(t, a.p) && ForkOk(t, a.p)
    ensures Turn(t, a)
  {
    hide Only, Stay, GoFork, GoRouse, GoExit, GoScan, GoChild;
  }

  lemma NextTurn(t: Table, a: Act)
    requires Can(t, a) && WaitLock(t, a.p) && FitsAt(t, a.p) && ForkOk(t, a.p)
    ensures Turn(t, a)
  {
    hide Next, Turn, WaitLock, Fits, ForkOk;
    match GroupOf(t, a) {
      case Outside => TurnOutside(t, a);
      case Births => TurnBirths(t, a);
      case Forking => TurnForking(t, a);
      case Exits => TurnExits(t, a);
      case Rousing => TurnRousing(t, a);
      case Scans => TurnScans(t, a);
      case Children => TurnChildren(t, a);
      case Sleeps => TurnSleeps(t, a);
    }
  }

  lemma NextForks(t: Table, a: Act, p: nat)
    requires Can(t, a) && p < |t.procs| && FitsBefore(t, a) && WaitLock(t, a.p)
    ensures ForksMove(t, a, p)
  {
    hide Next, CanAdvance, WaitMove, EndMove;
    if p == a.p { NextTurn(t, a); } else { OthersSame(t, a, p); }
  }

  lemma NextWaitLock(t: Table, a: Act, p: nat)
    requires Can(t, a) && p < |t.procs| && WaitLock(t, p) && WaitLock(t, a.p) && FitsAt(t, a.p)
    requires FitsAt(t, Other(t, a))
    requires ForkOk(t, a.p)
    ensures WaitLock(Next(t, a), p)
  {
    hide Next, CanAdvance, ForksMove, EndMove;
    NextTurn(t, a);
    if p != a.p { OthersSame(t, a, p); }
  }

  lemma NextForkPair(t: Table, a: Act, p: nat, q: nat)
    requires Can(t, a) && p < |t.procs| && q < |t.procs| && ForkPair(t, p, q) && ForkOk(t, p) && ForkOk(t, q)
    requires FitsBefore(t, a) && WaitLock(t, a.p)
    ensures ForkPair(Next(t, a), p, q)
  {
    hide Next, Fits;
    NextForks(t, a, p);
    NextForks(t, a, q);
  }

  lemma NextForkOk(t: Table, a: Act, p: nat)
    requires Can(t, a) && p < |t.procs| && FitsAt(t, a.p) && FitsAt(t, Other(t, a))
    requires ForkOk(t, p) && ForkOk(t, a.p) && WaitLock(t, a.p) && ForkPair(t, p, a.p)
    ensures ForkOk(Next(t, a), p)
  {
    hide Next, CanAdvance;
    NextForks(t, a, p);
    if Forks(t.procs[p].pc) {
      NextMoves(t, a, t.procs[p].pc.np);
    }
    if a.Fork? { NextMoves(t, a, a.np); }
  }

  /** The child that a process has stays, as only its parent takes one away. */
  lemma NextKid(t: Table, a: Act, p: nat, c: nat)
    requires Can(t, a) && p < |t.procs| && c < |t.procs| && t.procs[c].parent == p && KidOk(t, p) && FitsBefore(t, a)
    requires WaitLock(t, a.p) && Kin(t, a.p, c) && SeenKid(Next(t, a).procs[p].pc)
    requires p == a.p && !SeenKid(t.procs[p].pc) ==> t.procs[p].pc == ScanHeld(c)
    ensures HasChild(Next(t, a), p)
  {
    hide Next, CanAdvance;
    NextMoves(t, a, c);
    NextTurn(t, a);
    assert Next(t, a).procs[c].parent == p;
  }

  lemma NextKidOk(t: Table, a: Act, p: nat)
    requires Can(t, a) && p < |t.procs| && KidOk(t, p) && FitsBefore(t, a) && WaitLock(t, a.p) && FitsAt(t, p)
    requires forall c :: 0 <= c < |t.procs| ==> Kin(t, a.p, c)
    ensures KidOk(Next(t, a), p)
  {
    hide Next, CanAdvance, Fits, WaitLock, ForkOk, ForksMove, WaitMove;
    if SeenKid(Next(t, a).procs[p].pc) {
      if p == a.p { NextTurn(t, a); } else { OthersSame(t, a, p); }
      if SeenKid(t.procs[p].pc) {
        var c: nat :| c < |t.procs| && t.procs[c].parent == p;
        assert Kin(t, a.p, c);
        NextKid(t, a, p, c);
      } else {
        var c := t.procs[p].pc.i;
        assert Kin(t, a.p, c);
        NextKid(t, a, p, c);
      }
    }
  }

  lemma NextBooks(t: Table, a: Act)
    requires Can(t, a) && FitsAt(t, a.p) && ForkOk(t, a.p)
    ensures Next(t, a).nextpid == t.nextpid + if a.Fork? then 1 else 0
    ensures Next(t, a).exited == t.exited + if a.Advance? && t.procs[a.p].pc.Dying? then {t.procs[a.p].pid} else {}
    ensures Next(t, a).reaped == t.reaped +
              if a.Advance? && Frees(t, a, Other(t, a)) then [t.procs[Other(t, a)].pid] else []
  {
  }

  lemma NextPidOk(t: Table, a: Act, p: nat)
    requires Can(t, a) && p < |t.procs| && FitsAt(t, a.p) && ForkOk(t, a.p) && Ledger(t)
    requires var o := Other(t, a); PidOk(t, p) && PidOk(t, o) && PidPair(t, p, a.p) && PidPair(t, p, o)
    ensures PidOk(Next(t, a), p)
  {
    hide Next;
    NextMoves(t, a, p);
    NextBooks(t, a);
  }

  lemma NextPidPair(t: Table, a: Act, p: nat, q: nat)
    requires Can(t, a) && p < |t.procs| && q < |t.procs| && FitsAt(t, a.p) && ForkOk(t, a.p)
    requires PidOk(t, p) && PidOk(t, q) && PidPair(t, p, q)
    ensures PidPair(Next(t, a), p, q)
  {
    hide Next;
    NextMoves(t, a, p);
    NextMoves(t, a, q);
  }

  lemma NextLedger(t: Table, a: Act)
    requires Can(t, a) && Ledger(t) && PidOk(t, a.p) && PidOk(t, Other(t, a)) && FitsAt(t, a.p) && ForkOk(t, a.p)
    ensures Ledger(Next(t, a))
  {
    hide Next;
    NextBooks(t, a);
  }

  // What one action does to each part of the invariant, from the parts it depends on

  lemma FitsOutside(t: Table, a: Act)
    requires Can(t, a) && GroupOf(t, a) == Outside && FitsBefore(t, a)
    ensures FitsAt(Next(t, a), a.p) && FitsAt(Next(t, a), Other(t, a))
  {
    hide Go;
  }

  lemma FitsBirths(t: Table, a: Act)
    requires Can(t, a) && GroupOf(t, a) == Births && FitsBefore(t, a)
    ensures FitsAt(Next(t, a), a.p) && FitsAt(Next(t, a), Other(t, a))
  {
    hide Go;
  }

  lemma FitsForking(t: Table, a: Act)
    requires Can(t, a) && GroupOf(t, a) == Forking && FitsBefore(t, a)
    ensures FitsAt(Next(t, a), a.p) && FitsAt(Next(t, a), Other(t, a))
  {
    hide Only, Stay, GoRouse, GoExit, GoScan, GoChild, GoSleep;
  }

  lemma FitsExits(t: Table, a: Act)
    requires Can(t, a) && GroupOf(t, a) == Exits && FitsBefore(t, a)
    ensures FitsAt(Next(t, a), a.p) && FitsAt(Next(t, a), Other(t, a))
  {
    hide Only, Stay, GoFork, GoRouse, GoScan, GoChild, GoSleep;
  }

  lemma FitsRousing(t: Table, a: Act)
    requires Can(t, a) && GroupOf(t, a) == Rousing && FitsBefore(t, a)
    ensures FitsAt(Next(t, a), a.p) && FitsAt(Next(t, a), Other(t, a))
  {
    hide Only, Stay, GoFork, GoExit, GoScan, GoChild, GoSleep;
  }

  lemma FitsScans(t: Table, a: Act)
    requires Can(t, a) && GroupOf(t, a) == Scans && FitsBefore(t, a)
    ensures FitsAt(Next(t, a), a.p) && FitsAt(Next(t, a), Other(t, a))
  {
    hide Only, Stay, GoFork, GoRouse, GoExit, GoChild, GoSleep;
  }

  lemma FitsChildren(t: Table, a: Act)
    requires Can(t, a) && GroupOf(t, a) == Children && FitsBefore(t, a)
    ensures FitsAt(Next(t, a), a.p) && FitsAt(Next(t, a), Other(t, a))
  {
    hide Only, Stay, GoFork, GoRouse, GoExit, GoScan, GoSleep;
  }

  lemma FitsSleeps(t: Table, a: Act)
    requires Can(t, a) && GroupOf(t, a) == Sleeps && FitsBefore(t, a)
    ensures FitsAt(Next(t, a), a.p) && FitsAt(Next(t, a), Other(t, a))
  {
    hide Only, Stay, GoFork, GoRouse, GoExit, GoScan, GoChild;
  }

  predicate Loose(l: Lock, p: nat) { l == Open || l == Sched || l == Held(p) }

  /** Nobody's hold on a lock is touched but that of the process that acts. */
  ghost predicate LockMove(t: Table, a: Act, q: nat)
    requires Can(t, a) && q < |t.procs|
  {
    var l, r := t.procs[q].lock, Next(t, a).procs[q].lock;
    LockPair(Next(t, a), a.p, q) && (r == l || (Loose(l, a.p) && Loose(r, a.p)))
  }

  ghost predicate LocksBefore(t: Table, a: Act, q: nat)
    requires Can(t, a) && q < |t.procs|
  {
    FitsBefore(t, a) && LockPair(t, a.p, q) && LockPair(t, a.p, a.p) && LockPair(t, a.p, Other(t, a))
  }

  lemma LockOutside(t: Table, a: Act, q: nat)
    requires Can(t, a) && q < |t.procs| && GroupOf(t, a) == Outside && LocksBefore(t, a, q)
    ensures LockMove(t, a, q)
  {
    hide Go;
  }

  lemma LockBirths(t: Table, a: Act, q: nat)
    requires Can(t, a) && q < |t.procs| && GroupOf(t, a) == Births && LocksBefore(t, a, q)
    ensures LockMove(t, a, q)
  {
    hide Go;
  }

  lemma LockForking(t: Table, a: Act, q: nat)
    requires Can(t, a) && q < |t.procs| && GroupOf(t, a) == Forking && LocksBefore(t, a, q)
    ensures LockMove(t, a, q)
  {
    hide Fits, CanAdvance, Only, Stay, GoRouse, GoExit, GoScan, GoChild, GoSleep;
  }

  lemma LockExits(t: Table, a: Act, q: nat)
    requires Can(t, a) && q < |t.procs| && GroupOf(t, a) == Exits && LocksBefore(t, a, q)
    ensures LockMove(t, a, q)
  {
    hide Fits, FitsBefore, ForkOk, Only, Stay, GoFork, GoRouse, GoScan, GoChild, GoSleep;
  }

  lemma LockRousing(t: Table, a: Act, q: nat)
    requires Can(t, a) && q < |t.procs| && GroupOf(t, a) == Rousing && LocksBefore(t, a, q)
    ensures LockMove(t, a, q)
  {
    hide Only, Stay, GoFork, GoExit, GoScan, GoChild, GoSleep;
  }

  lemma LockScans(t: Table, a: Act, q: nat)
    requires Can(t, a) && q < |t.procs| && GroupOf(t, a) == Scans && LocksBefore(t, a, q)
    ensures LockMove(t, a, q)
  {
    hide Only, Stay, GoFork, GoRouse, GoExit, GoChild, GoSleep;
  }

  lemma LockChildren(t: Table, a: Act, q: nat)
    requires Can(t, a) && q < |t.procs| && GroupOf(t, a) == Children && LocksBefore(t, a, q)
    ensures LockMove(t, a, q)
  {
    hide Only, Stay, GoFork, GoRouse, GoExit, GoScan, GoSleep;
  }

  lemma LockSleeps(t: Table, a: Act, q: nat)
    requires Can(t, a) && q < |t.procs| && GroupOf(t, a) == Sleeps && LocksBefore(t, a, q)
    ensures LockMove(t, a, q)
  {
    hide Only, Stay, GoFork, GoRouse, GoExit, GoScan, GoChild;
  }

  lemma NextLock(t: Table, a: Act, q: nat)
    requires Can(t, a) && q < |t.procs| && LocksBefore(t, a, q)
    ensures LockMove(t, a, q)
  {
    hide Next, LocksBefore, LockMove;
    match GroupOf(t, a) {
      case Outside => LockOutside(t, a, q);
      case Births => LockBirths(t, a, q);
      case Forking => LockForking(t, a, q);
      case Exits => LockExits(t, a, q);
      case Rousing => LockRousing(t, a, q);
      case Scans => LockScans(t, a, q);
      case Children => LockChildren(t, a, q);
      case Sleeps => LockSleeps(t, a, q);
    }
  }

  lemma NextLockPair(t: Table, a: Act, p: nat, q: nat)
    requires Can(t, a) && p < |t.procs| && q < |t.procs| && LocksBefore(t, a, q) && LockPair(t, p, q)
    ensures LockPair(Next(t, a), p, q)
  {
    hide Next, CanAdvance;
    NextLock(t, a, q);
    if p != a.p { OthersSame(t, a, p); }
  }

  // The children of the process that acts

  lemma KinOutside(t: Table, a: Act, c: nat)
    requires Can(t, a) && c < |t.procs| && GroupOf(t, a) == Outside
    requires Kin(t, a.p, c) && FitsAt(t, a.p) && ForkOk(t, a.p)
    ensures Kin(Next(t, a), a.p, c)
  {
    hide Go;
  }

  lemma KinBirths(t: Table, a: Act, c: nat)
    requires Can(t, a) && c < |t.procs| && GroupOf(t, a) == Births
    requires Kin(t, a.p, c) && FitsAt(t, a.p) && ForkOk(t, a.p)
    ensures Kin(Next(t, a), a.p, c)
  {
    hide Go;
  }

  lemma KinForking(t: Table, a: Act, c: nat)
    requires Can(t, a) && c < |t.procs| && GroupOf(t, a) == Forking
    requires Kin(t, a.p, c) && FitsAt(t, a.p) && ForkOk(t, a.p)
    ensures Kin(Next(t, a), a.p, c)
  {
    hide Only, Stay, GoRouse, GoExit, GoScan, GoChild, GoSleep;
  }

  lemma KinExits(t: Table, a: Act, c: nat)
    requires Can(t, a) && c < |t.procs| && GroupOf(t, a) == Exits
    requires Kin(t, a.p, c) && FitsAt(t, a.p) && ForkOk(t, a.p)
    ensures Kin(Next(t, a), a.p, c)
  {
    hide Only, Stay, GoFork, GoRouse, GoScan, GoChild, GoSleep;
  }

  lemma KinRousing(t: Table, a: Act, c: nat)
    requires Can(t, a) && c < |t.procs| && GroupOf(t, a) == Rousing
    requires Kin(t, a.p, c) && FitsAt(t, a.p) && ForkOk(t, a.p)
    ensures Kin(Next(t, a), a.p, c)
  {
    hide Only, Stay, GoFork, GoExit, GoScan, GoChild, GoSleep;
  }

  lemma KinScans(t: Table, a: Act, c: nat)
    requires Can(t, a) && c < |t.procs| && GroupOf(t, a) == Scans
    requires Kin(t, a.p, c) && FitsAt(t, a.p) && ForkOk(t, a.p)
    ensures Kin(Next(t, a), a.p, c)
  {
    hide Only, Stay, GoFork, GoRouse, GoExit, GoChild, GoSleep;
  }

  lemma KinChildren(t: Table, a: Act, c: nat)
    requires Can(t, a) && c < |t.procs| && GroupOf(t, a) == Children
    requires Kin(t, a.p, c) && FitsAt(t, a.p) && ForkOk(t, a.p)
    ensures Kin(Next(t, a), a.p, c)
  {
    hide Only, Stay, GoFork, GoRouse, GoExit, GoScan, GoSleep;
  }

  lemma KinSleeps(t: Table, a: Act, c: nat)
    requires Can(t, a) && c < |t.procs| && GroupOf(t, a) == Sleeps
    requires Kin(t, a.p, c) && FitsAt(t, a.p) && ForkOk(t, a.p)
    ensures Kin(Next(t, a), a.p, c)
  {
    hide Only, Stay, GoFork, GoRouse, GoExit, GoScan, GoChild;
  }

  lemma NextKinMine(t: Table, a: Act, c: nat)
    requires Can(t, a) && c < |t.procs| && Kin(t, a.p, c) && FitsAt(t, a.p) && ForkOk(t, a.p)
    ensures Kin(Next(t, a), a.p, c)
  {
    hide Next, Kin, Fits, ForkOk;
    match GroupOf(t, a) {
      case Outside => KinOutside(t, a, c);
      case Births => KinBirths(t, a, c);
      case Forking => KinForking(t, a, c);
      case Exits => KinExits(t, a, c);
      case Rousing => KinRousing(t, a, c);
      case Scans => KinScans(t, a, c);
      case Children => KinChildren(t, a, c);
      case Sleeps => KinSleeps(t, a, c);
    }
  }

  /** The children of others. */
  lemma NextKinOther(t: Table, a: Act, p: nat, c: nat)
    requires Can(t, a) && p < |t.procs| && c < |t.procs| && p != a.p && Kin(t, p, c)
    requires FitsAt(t, a.p) && ForkOk(t, a.p) && FitsAt(t, p)
    requires WaitLock(t, p) && WaitLock(t, a.p) && LockPair(t, p, c) && LockPair(t, a.p, c)
    ensures Kin(Next(t, a), p, c)
  {
    hide Next;
    OthersSame(t, a, p);
    NextMoves(t, a, p);
    NextMoves(t, a, c);
  }

  // Sleeping in wait

  /** A wakeup that is coming keeps coming, unless it is the one that goes on. */
  lemma WakeComes(t: Table, a: Act, p: nat)
    requires Can(t, a) && WillWake(t, p) && WaitLock(t, a.p) && FitsAt(t, a.p) && ForkOk(t, a.p)
    requires FitsAt(t, t.wl.who) && FitsAt(t, Other(t, a))
    requires a.Advance? ==> t.wl.who != a.p
    ensures WillWake(Next(t, a), p)
  {
    hide Next;
    var w := t.wl.who;
    NextTurn(t, a);
    if w == a.p {
      IdleSame(t, a);
    } else {
      OthersSame(t, a, w);
      NextMoves(t, a, w);
    }
  }

  /** A process that wakes others is not doing anything else. */
  lemma IdleSame(t: Table, a: Act)
    requires Can(t, a) && !a.Advance? && t.procs[a.p].pc.Rouse? && FitsAt(t, a.p)
    ensures var x := Next(t, a).procs[a.p]; x.pc == t.procs[a.p].pc && x.parent == t.procs[a.p].parent
  {
    hide Go, CanAdvance;
  }

  /** The wakeup itself goes on, and has woken p if p was asleep when it came past. */
  lemma WakeGoesOn(t: Table, a: Act, p: nat)
    requires Can(t, a) && a.Advance? && p < |t.procs| && t.wl == Held(a.p) && WillWake(t, p)
    requires Committed(t.procs[p], p) && Committed(Next(t, a).procs[p], p) && LockPair(t, p, p)
    ensures WillWake(Next(t, a), p)
  {
    hide Only, Stay, GoFork, GoExit, GoScan, GoChild, GoSleep;
  }

  lemma VigilExits(t: Table, a: Act, p: nat, c: nat)
    requires Can(t, a) && a.Advance? && t.procs[a.p].pc.Reparent? && p < |t.procs| && c < |t.procs|
    requires VigilBefore(t, a, p, c)
    ensures Vigil(Next(t, a), p, c)
  {
    hide Only, Stay, GoFork, GoRouse, GoScan, GoChild, GoSleep;
  }

  ghost predicate VigilBefore(t: Table, a: Act, p: nat, c: nat)
    requires Can(t, a) && p < |t.procs| && c < |t.procs|
  {
    && Vigil(t, p, c) && Kin(t, p, c) && FitsBefore(t, a) && FitsAt(t, p) && FitsAt(t, c)
    && WaitLock(t, p) && WaitLock(t, a.p) && WaitLock(t, c) && LockPair(t, p, p)
    && (t.wl.Held? ==> t.wl.who < |t.procs| && FitsAt(t, t.wl.who))
  }

  /** Before the action too p was committed to sleep, or about to be with no child ending. */
  lemma WasCommitted(t: Table, a: Act, p: nat, c: nat)
    requires Can(t, a) && p < |t.procs| && c < |t.procs| && VigilBefore(t, a, p, c) && FitsAt(Next(t, a), p)
    requires !(a.Advance? && t.procs[a.p].pc.Reparent?)
    requires var r := Next(t, a); Committed(r.procs[p], p) && r.procs[c].parent == p && Ending(r, r.procs[c])
    ensures Committed(t.procs[p], p) && t.procs[c].parent == p && Ending(t, t.procs[c])
  {
    hide Next;
    NextTurn(t, a);
    NextMoves(t, a, c);
    NextMoves(t, a, p);
    if p != a.p { OthersSame(t, a, p); }
    if c != a.p { OthersSame(t, a, c); }
  }

  lemma NextVigil(t: Table, a: Act, p: nat, c: nat)
    requires Can(t, a) && p < |t.procs| && c < |t.procs| && VigilBefore(t, a, p, c) && FitsAt(Next(t, a), p)
    ensures Vigil(Next(t, a), p, c)
  {
    hide Next, Fits, Kin, LockPair, ForkOk, CanAdvance;
    var r := Next(t, a);
    if a.Advance? && t.procs[a.p].pc.Reparent? {
      VigilExits(t, a, p, c);
    } else if Committed(r.procs[p], p) && r.procs[c].parent == p && Ending(r, r.procs[c]) {
      WasCommitted(t, a, p, c);
      if a.Advance? && t.wl.who == a.p { WakeGoesOn(t, a, p); } else { WakeComes(t, a, p); }
    }
  }

  // Putting it together

  lemma NextSingle(t: Table, a: Act, p: nat)
    requires Inv(t) && Can(t, a) && p < |t.procs|
    ensures Single(Next(t, a), p)
  {
    hide Next, Fits, WaitLock, ForkOk, KidOk, PidOk, Ledger, LockPair, ForkPair, Kin, Vigil, PidPair;
    var o := Other(t, a);
    assert Single(t, p) && Single(t, a.p) && Single(t, o) && Pair(t, p, a.p) && Pair(t, p, o);
    forall c | 0 <= c < |t.procs| ensures Kin(t, a.p, c) { assert Pair(t, a.p, c); }
    NextKidOk(t, a, p);
    NextWaitLock(t, a, p);
    NextForkOk(t, a, p);
    NextPidOk(t, a, p);
    NextFits(t, a, p);
  }

  lemma NextFits(t: Table, a: Act, p: nat)
    requires Can(t, a) && p < |t.procs| && FitsAt(t, p) && FitsAt(t, a.p) && FitsAt(t, Other(t, a)) && ForkOk(t, a.p)
    ensures FitsAt(Next(t, a), p)
  {
    hide Next, Fits;
    match GroupOf(t, a) {
      case Outside => FitsOutside(t, a);
      case Births => FitsBirths(t, a);
      case Forking => FitsForking(t, a);
      case Exits => FitsExits(t, a);
      case Rousing => FitsRousing(t, a);
      case Scans => FitsScans(t, a);
      case Children => FitsChildren(t, a);
      case Sleeps => FitsSleeps(t, a);
    }
    if p != a.p && p != Other(t, a) { OthersSame(t, a, p); }
  }

  lemma NextPair(t: Table, a: Act, p: nat, q: nat)
    requires Inv(t) && Can(t, a) && p < |t.procs| && q < |t.procs|
    ensures Pair(Next(t, a), p, q)
  {
    hide Next, Fits, WaitLock, ForkOk, KidOk, PidOk, Ledger, LockPair, ForkPair, Kin, Vigil, PidPair;
    var o := Other(t, a);
    assert Single(t, p) && Single(t, q) && Single(t, a.p) && Single(t, o);
    assert Pair(t, p, q) && Pair(t, a.p, a.p) && Pair(t, a.p, q) && Pair(t, p, a.p) && Pair(t, p, p);
    assert Pair(t, o, o) && Pair(t, o, q) && Pair(t, p, o) && Pair(t, a.p, o);
    NextForkPair(t, a, p, q);
    NextPidPair(t, a, p, q);
    NextLockPair(t, a, p, q);
    if p == a.p { NextKinMine(t, a, q); } else { NextKinOther(t, a, p, q); }
    NextFits(t, a, p);
    if t.wl.Held? { assert Single(t, t.wl.who); }
    NextVigil(t, a, p, q);
  }

  lemma NextHolder(t: Table, a: Act)
    requires Can(t, a) && t.wl != Sched && (t.wl.Held? ==> t.wl.who < |t.procs|)
    ensures var w := Next(t, a).wl; w != Sched && (w.Held? ==> w.who < |t.procs|)
  {
  }

  lemma NextInv(t: Table, a: Act)
    requires Inv(t) && Can(t, a)
    ensures Inv(Next(t, a))
  {
    hide Next, Single, Pair, Ledger;
    NextHolder(t, a);
    Parts(t, a.p);
    Parts(t, Other(t, a));
    NextLedger(t, a);
    forall p | 0 <= p < |t.procs| ensures Single(Next(t, a), p) { NextSingle(t, a, p); }
    forall p, q | 0 <= p < |t.procs| && 0 <= q < |t.procs| ensures Pair(Next(t, a), p, q) { NextPair(t, a, p, q); }
  }

  lemma Parts(t: Table, p: nat)
    requires Inv(t) && p < |t.procs|
    ensures FitsAt(t, p) && ForkOk(t, p) && PidOk(t, p) && WaitLock(t, p)
  {
    assert Single(t, p);
  }

  // Runs

  ghost predicate Behaviour(tables: seq<Table>, acts: seq<Act>) {
    && |tables| == |acts| + 1
    && forall i :: 0 <= i < |acts| ==> Can(tables[i], acts[i]) && tables[i + 1] == Next(tables[i], acts[i])
  }

  lemma {:induction false} BehaviourInv(tables: seq<Table>, acts: seq<Act>, k: nat)
    requires Behaviour(tables, acts) && Inv(tables[0]) && k < |tables|
    ensures Inv(tables[k])
  {
    hide Inv, Can, Next;
    if k > 0 {
      BehaviourInv(tables, acts, k - 1);
      NextInv(tables[k - 1], acts[k - 1]);
    }
  }

  lemma Promises(t: Table)
    requires Inv(t)
    ensures ParentsLive(t) && NoOrphans(t) && NobodyWaitsInVain(t) && SleepersHaveChildren(t) && ReapedOnce(t)
  {
    hide WaitLock, ForkOk, PidOk, LockPair, ForkPair, PidPair, HasChild;
    forall p | 0 <= p < |t.procs| && Committed(t.procs[p], p) ensures HasChild(t, p) { assert Single(t, p); }
    forall c | 0 <= c < |t.procs| && t.procs[c].parent != NOBODY
      ensures 0 <= t.procs[c].parent < |t.procs| && t.procs[t.procs[c].parent].st !in {UNUSED, USED, ZOMBIE}
    {
      assert Single(t, c);
      assert Pair(t, t.procs[c].parent, c);
    }
    forall c | 0 <= c < |t.procs| && c != INIT && t.procs[c].st !in {UNUSED, USED}
      ensures t.procs[c].parent != NOBODY
    {
      assert Single(t, c);
    }
    forall p, c | t.wl == Open && 0 <= p < |t.procs| && 0 <= c < |t.procs|
                  && t.procs[c].parent == p && t.procs[c].st == ZOMBIE
      ensures !Committed(t.procs[p], p)
    {
      assert Pair(t, p, c);
    }
  }

  /** In every state of every run: parents are live, every started process has one, nobody sleeps in
      wait with a zombie child once wait_lock is free, or without a child, and each process is reaped at
      most once, after it exited. */
  lemma LifetimeSafe(n: nat, tables: seq<Table>, acts: seq<Act>, k: nat)
    requires n > INIT && Behaviour(tables, acts) && tables[0] == Boot(n) && k < |tables|
    ensures ParentsLive(tables[k]) && NoOrphans(tables[k])
    ensures NobodyWaitsInVain(tables[k]) && SleepersHaveChildren(tables[k]) && ReapedOnce(tables[k])
  {
    BootInv(n);
    BehaviourInv(tables, acts, k);
    Promises(tables[k]);
  }

  /** wait gives up only if the process has been killed or has no children, and what it reaps is a
      child of the caller. */
  lemma WaitIsRight(t: Table, p: nat)
    requires Inv(t) && p < |t.procs|
    ensures t.procs[p].pc == Scan(|t.procs|, false) ==> forall c :: 0 <= c < |t.procs| ==> t.procs[c].parent != p
    ensures t.procs[p].pc.ScanHeld? ==> t.procs[p].pc.i < |t.procs| && t.procs[t.procs[p].pc.i].parent == p
    ensures t.procs[p].pc.Scan? && Can(t, Advance(p)) && Next(t, Advance(p)).procs[p].pc == Leaving ==>
              t.procs[p].killed || forall c :: 0 <= c < |t.procs| ==> t.procs[c].parent != p
  {
    assert Single(t, p);
    forall c | t.procs[p].pc.Scan? && 0 <= c < |t.procs| && t.procs[c].parent == p && c < t.procs[p].pc.i
      ensures t.procs[p].pc.kids
    {
      assert Pair(t, p, c);
    }
    if t.procs[p].pc.ScanHeld? { assert Pair(t, p, t.procs[p].pc.i); }
    forall c | t.procs[p].pc == Scan(|t.procs|, false) && 0 <= c < |t.procs| ensures t.procs[c].parent != p {
      assert Pair(t, p, c);
    }
  }
}
