/** Sleep locks over sleep and wakeup (kernel/sleeplock.c, kernel/proc.c), as every interleaving of
    the steps that processes, the schedulers and kill take between lock operations. */
module SleepLock {
  import opened SpinLock

  datatype Run = RUNNING | RUNNABLE | SLEEPING

  /** Where a process is. The comments name the spin locks it holds there. */
  datatype Pc =
    | Idle                // none
    | Blocked             // inner: found the sleep lock taken, about to acquire its own lock in sleep
    | Sealed              // inner and its own lock: about to release inner
    | Sinking             // its own lock: inner released, about to mark itself asleep
    | Asleep              // none: gave its own lock to the scheduler
    | Waking              // its own lock: chosen by the scheduler, about to leave sleep
    | Retry               // none: about to reacquire inner and test again
    | Took                // inner: has taken the sleep lock
    | Holding             // none: inside the critical section
    | Wake(q: nat)        // inner: released the sleep lock, wakeup has come to process q
    | WakeHeld(q: nat)    // inner and q's lock

  datatype Proc = Proc(pc: Pc, run: Run, chan: bool, lock: Lock)

  /** `inner` is lk->lk, `owner` is lk->pid; `chan` of a process says that it sleeps on this lock. */
  datatype State = State(procs: seq<Proc>, inner: Lock, locked: bool, owner: nat)

  datatype Step =
    | Advance(p: nat)       // the process's own next step
    | Preempt(p: nat)       // yield, where it holds no spin lock
    | Dispatch(p: nat)      // a scheduler picks it
    | Release(p: nat)       // the scheduler it left releases its lock
    | Kill(p: nat)          // kill wakes it whatever it waits for

  predicate Preemptible(pc: Pc) { pc in {Idle, Retry, Holding} }

  predicate Enabled(s: State, step: Step) {
    && step.p < |s.procs|
    && var x := s.procs[step.p];
       match step {
         case Advance(p) =>
           && x.run == RUNNING
           && (match x.pc {
                 case Idle | Retry | Holding => s.inner == Open
                 case Blocked => x.lock == Open
                 case Wake(q) => q < |s.procs| && q != p ==> s.procs[q].lock == Open
                 case Asleep => false
                 case _ => true
               })
         case Preempt(p) => x.run == RUNNING && x.lock == Open && Preemptible(x.pc)
         case Dispatch(p) => x.run == RUNNABLE && x.lock == Open
         case Release(p) => x.lock == Sched
         case Kill(p) => x.lock == Open
       }
  }

  function With(s: State, p: nat, x: Proc): State
    requires p < |s.procs|
  {
    s.(procs := s.procs[p := x])
  }

  function Do(s: State, step: Step): (r: State)
    requires Enabled(s, step)
  {
    var p := step.p;
    var x := s.procs[p];
    match step {
      case Preempt(_) => With(s, p, x.(run := RUNNABLE, lock := Sched))
      case Release(_) => With(s, p, x.(lock := Open))
      case Kill(_) => With(s, p, x.(run := if x.run == SLEEPING then RUNNABLE else x.run))
      case Dispatch(_) =>
        With(s, p, if x.pc == Asleep then x.(run := RUNNING, lock := Held(p), pc := Waking) else x.(run := RUNNING))
      case Advance(_) =>
        match x.pc {
          // acquiresleep: acquire, then the test of the while loop
          case Idle | Retry =>
            if s.locked then With(s, p, x.(pc := Blocked)).(inner := Held(p))
            else With(s, p, x.(pc := Took)).(inner := Held(p), locked := true, owner := p)
          case Took => With(s, p, x.(pc := Holding)).(inner := Open)
          // sleep
          case Blocked => With(s, p, x.(pc := Sealed, lock := Held(p)))
          case Sealed => With(s, p, x.(pc := Sinking)).(inner := Open)
          case Sinking => With(s, p, x.(pc := Asleep, chan := true, run := SLEEPING, lock := Sched))
          case Waking => With(s, p, x.(pc := Retry, chan := false, lock := Open))
          // releasesleep: acquire and clear, then wakeup, then release
          case Holding => With(s, p, x.(pc := Wake(0))).(inner := Held(p), locked := false, owner := 0)
          case Wake(q) =>
            if q >= |s.procs| then With(s, p, x.(pc := Idle)).(inner := Open)
            else if q == p then With(s, p, x.(pc := Wake(q + 1)))
            else
              var y := s.procs[q];
              var woken := y.(lock := Held(p), run := if y.run == SLEEPING && y.chan then RUNNABLE else y.run);
              With(With(s, q, woken), p, x.(pc := WakeHeld(q)))
          case WakeHeld(q) =>
            var t := With(s, p, x.(pc := Wake(q + 1)));
            if q < |s.procs| && q != p then With(t, q, t.procs[q].(lock := Open)) else t
          case Asleep => s
        }
    }
  }

  function Init(n: nat): (s: State) {
    State(seq(n, _ => Proc(Idle, RUNNABLE, false, Open)), Open, false, 0)
  }

  ghost predicate Behaviour(states: seq<State>, steps: seq<Step>) {
    && |states| == |steps| + 1
    && forall i :: 0 <= i < |steps| ==> Enabled(states[i], steps[i]) && states[i + 1] == Do(states[i], steps[i])
  }

  // What the code promises

  /** Asleep on the lock, or past the point of no return on the way there. */
  predicate Committed(x: Proc) {
    x.pc == Sinking || (x.run == SLEEPING && x.chan)
  }

  predicate Owns(pc: Pc) { pc in {Took, Holding} }

  ghost predicate NoLostWakeup(s: State) {
    s.inner == Open && !s.locked ==> forall p :: 0 <= p < |s.procs| ==> !Committed(s.procs[p])
  }

  /** The lock is marked taken exactly while a process has it, which is the one it names. */
  ghost predicate Exclusive(s: State) {
    && (s.locked ==> s.owner < |s.procs| && Owns(s.procs[s.owner].pc))
    && (forall p :: 0 <= p < |s.procs| && Owns(s.procs[p].pc) ==> s.locked && s.owner == p)
  }

  /** A process that switches away holds its own lock and no other, as sched demands. */
  ghost predicate SchedReady(s: State) {
    forall p :: 0 <= p < |s.procs| && s.procs[p].pc == Sinking ==>
      s.procs[p].lock == Held(p) && s.inner != Held(p)
      && forall q :: 0 <= q < |s.procs| && q != p ==> s.procs[q].lock != Held(p)
  }

  // The invariant

  predicate HasInner(pc: Pc) { pc.Blocked? || pc.Sealed? || pc.Took? || pc.Wake? || pc.WakeHeld? }

  predicate HasOwn(pc: Pc) { pc.Sealed? || pc.Sinking? || pc.Waking? }

  /** Inner is held by the process whose place says so. */
  ghost predicate InnerLock(s: State) {
    && (forall p :: 0 <= p < |s.procs| ==> (HasInner(s.procs[p].pc) <==> s.inner == Held(p)))
    && s.inner != Sched && (s.inner.Held? ==> s.inner.who < |s.procs|)
  }

  /** Process p has q's lock exactly where its place says so. */
  ghost predicate LockPair(s: State, p: nat, q: nat)
    requires p < |s.procs| && q < |s.procs|
  {
    s.procs[q].lock == Held(p) <==> if p == q then HasOwn(s.procs[p].pc) else s.procs[p].pc == WakeHeld(q)
  }

  /** So is every process's lock. */
  ghost predicate ProcLock(s: State, q: nat)
    requires q < |s.procs|
  {
    && (s.procs[q].lock.Held? ==> s.procs[q].lock.who < |s.procs|)
    && (forall p :: 0 <= p < |s.procs| ==> LockPair(s, p, q))
    && (s.procs[q].pc.WakeHeld? ==> s.procs[q].pc.q < |s.procs| && s.procs[q].pc.q != q)
  }

  ghost predicate Locks(s: State) {
    InnerLock(s) && forall q :: 0 <= q < |s.procs| ==> ProcLock(s, q)
  }

  /** The run state and channel of a process fit where it is. */
  ghost predicate Fits(x: Proc) {
    && (x.chan <==> x.pc.Asleep? || x.pc.Waking?)
    && (x.run == SLEEPING ==> x.pc == Asleep)
    && (x.pc == Asleep ==> x.run != RUNNING)
    && (x.run != RUNNING ==> x.pc == Asleep || Preemptible(x.pc))
  }

  /** The holder of inner is in wakeup and has still to come to process p. */
  ghost predicate WillWake(s: State, p: nat) {
    && s.inner.Held? && s.inner.who < |s.procs|
    && var pc := s.procs[s.inner.who].pc; (pc.Wake? && pc.q <= p) || (pc.WakeHeld? && pc.q < p)
  }

  ghost predicate Safe(s: State, p: nat)
    requires p < |s.procs|
  {
    var x := s.procs[p];
    && (Committed(x) ==> s.locked || WillWake(s, p))
    && (x.pc.Blocked? || x.pc.Sealed? ==> s.locked)
    && (x.pc.Wake? || x.pc.WakeHeld? ==> !s.locked)
  }

  ghost predicate AllFit(s: State) { forall p :: 0 <= p < |s.procs| ==> Fits(s.procs[p]) }
  ghost predicate AllSafe(s: State) { forall p :: 0 <= p < |s.procs| ==> Safe(s, p) }

  ghost predicate Inv(s: State) {
    Locks(s) && Exclusive(s) && AllFit(s) && AllSafe(s)
  }

  lemma InitInv(n: nat)
    ensures Inv(Init(n))
  {
  }

  lemma StepInner(s: State, step: Step)
    requires InnerLock(s) && Enabled(s, step)
    ensures InnerLock(Do(s, step))
  {
  }

  predicate InWakeup(s: State, step: Step) {
    step.p < |s.procs| && step.Advance? && (s.procs[step.p].pc.Wake? || s.procs[step.p].pc.WakeHeld?)
  }

  lemma StepPair(s: State, step: Step, p: nat, q: nat)
    requires Enabled(s, step) && p < |s.procs| && q < |s.procs|
    requires LockPair(s, p, q) && LockPair(s, step.p, step.p) && LockPair(s, step.p, q) && Fits(s.procs[step.p])
    ensures LockPair(Do(s, step), p, q)
  {
  }

  lemma StepProcLock(s: State, step: Step, q: nat)
    requires Locks(s) && AllFit(s) && Enabled(s, step) && q < |s.procs|
    ensures ProcLock(Do(s, step), q)
  {
    hide LockPair;
    assert ProcLock(s, q) && ProcLock(s, step.p) && Fits(s.procs[step.p]);
    forall p | 0 <= p < |Do(s, step).procs| ensures LockPair(Do(s, step), p, q) {
      StepPair(s, step, p, q);
    }
  }

  lemma StepOwner(s: State, step: Step, p: nat)
    requires Exclusive(s) && Enabled(s, step) && p < |s.procs|
    ensures var r := Do(s, step);
            && |r.procs| == |s.procs| && (r.locked ==> r.owner < |s.procs|)
            && (Owns(r.procs[p].pc) <==> r.locked && r.owner == p)
  {
  }

  lemma StepExclusive(s: State, step: Step)
    requires Exclusive(s) && Enabled(s, step)
    ensures Exclusive(Do(s, step))
  {
    hide Do;
    StepOwner(s, step, step.p);
    var r := Do(s, step);
    forall p | 0 <= p < |s.procs| ensures Owns(r.procs[p].pc) <==> r.locked && r.owner == p {
      StepOwner(s, step, p);
    }
  }

  lemma StepFits(s: State, step: Step)
    requires Locks(s) && AllFit(s) && Enabled(s, step)
    ensures AllFit(Do(s, step))
  {
  }

  lemma WakeupSafe(s: State, step: Step, p: nat)
    requires Inv(s) && Enabled(s, step) && InWakeup(s, step) && p < |s.procs|
    ensures Safe(Do(s, step), p)
  {
    assert Safe(s, p) && Fits(s.procs[p]) && Fits(s.procs[step.p]) && ProcLock(s, p);
    assert LockPair(s, p, p);
  }

  lemma OtherSafe(s: State, step: Step, p: nat)
    requires Inv(s) && Enabled(s, step) && !InWakeup(s, step) && p < |s.procs|
    ensures Safe(Do(s, step), p)
  {
    assert Safe(s, p) && Fits(s.procs[p]) && Safe(s, step.p) && Fits(s.procs[step.p]);
  }

  lemma StepInv(s: State, step: Step)
    requires Inv(s) && Enabled(s, step)
    ensures Inv(Do(s, step))
  {
    StepInner(s, step);
    StepExclusive(s, step);
    StepFits(s, step);
    hide Do, Exclusive, AllFit, InnerLock, ProcLock, Safe;
    forall p | 0 <= p < |Do(s, step).procs| ensures Safe(Do(s, step), p) {
      if InWakeup(s, step) { WakeupSafe(s, step, p); } else { OtherSafe(s, step, p); }
    }
    forall q | 0 <= q < |Do(s, step).procs| ensures ProcLock(Do(s, step), q) {
      StepProcLock(s, step, q);
    }
  }

  lemma {:induction false} RunInv(states: seq<State>, steps: seq<Step>, k: nat)
    requires Behaviour(states, steps) && Inv(states[0]) && k < |states|
    ensures Inv(states[k])
  {
    hide Inv, Do, Enabled;
    if k > 0 {
      RunInv(states, steps, k - 1);
      StepInv(states[k - 1], steps[k - 1]);
    }
  }

  lemma Promises(s: State)
    requires Inv(s)
    ensures NoLostWakeup(s) && Exclusive(s) && SchedReady(s)
  {
    forall p | 0 <= p < |s.procs| && s.inner == Open && !s.locked ensures !Committed(s.procs[p]) {
      assert Safe(s, p);
    }
    forall p, q | 0 <= p < |s.procs| && s.procs[p].pc == Sinking && 0 <= q < |s.procs|
      ensures s.procs[q].lock == Held(p) <==> q == p
    {
      assert ProcLock(s, q);
      assert LockPair(s, p, q);
    }
    forall p | 0 <= p < |s.procs| && s.procs[p].pc == Sinking ensures s.procs[p].lock == Held(p) && s.inner != Held(p) {
    }
  }

  /** In every state of every run: no wakeup is lost, the lock has at most one holder, sched is called
      with exactly the lock it demands, and there is no deadlock. */
  lemma RunSafe(n: nat, states: seq<State>, steps: seq<Step>, k: nat)
    requires Behaviour(states, steps) && states[0] == Init(n) && k < |states|
    ensures NoLostWakeup(states[k]) && Exclusive(states[k]) && SchedReady(states[k])
    ensures |states[k].procs| > 0 ==> exists step :: OwnStep(step) && Enabled(states[k], step)
  {
    hide Inv, Enabled, Do, Behaviour, NoLostWakeup, Exclusive, SchedReady;
    InitInv(n);
    RunInv(states, steps, k);
    Promises(states[k]);
    if |states[k].procs| > 0 { var step := NoDeadlock(states[k]); }
  }

  /** Once releasesleep's wakeup is through, every process that waited for the lock is on its way to
      test it again, unless another has already taken it. */
  lemma AllWoken(s: State, p: nat, q: nat)
    requires Inv(s) && p < |s.procs| && q < |s.procs| && s.procs[p].pc.Wake? && s.procs[p].pc.q >= |s.procs|
    ensures !Committed(s.procs[q])
  {
    assert Safe(s, q) && Safe(s, p);
  }

  // Progress

  /** acquiresleep takes a free lock and waits at a taken one, releasesleep frees it, and no other
      step has a say in whose it is. */
  lemma TestRight(s: State, p: nat)
    requires Inv(s) && Enabled(s, Advance(p))
    ensures var r, pc := Do(s, Advance(p)), s.procs[p].pc;
            && |r.procs| == |s.procs|
            && (pc in {Idle, Retry} && !s.locked ==> r.locked && r.owner == p && Owns(r.procs[p].pc))
            && (pc in {Idle, Retry} && s.locked ==> r.procs[p].pc == Blocked)
            && (pc == Holding ==> s.owner == p && !r.locked)
            && (pc != Holding && (s.locked || pc !in {Idle, Retry}) ==> r.locked == s.locked && r.owner == s.owner)
  {
  }

  /** The scheduler runs whom it picks and releases the lock of whom it left; kill wakes; and none of
      them moves a process, but for one that comes out of sleep. */
  lemma SchedulerRight(s: State, step: Step)
    requires Enabled(s, step) && !step.Advance?
    ensures var r, p := Do(s, step), step.p;
            && r.inner == s.inner && r.locked == s.locked && r.owner == s.owner && |r.procs| == |s.procs|
            && (step.Dispatch? ==> r.procs[p].run == RUNNING)
            && (step.Dispatch? && s.procs[p].pc == Asleep ==> r.procs[p].pc == Waking && r.procs[p].lock == Held(p))
            && (step.Release? ==> r.procs[p].lock == Open && r.procs[p].run == s.procs[p].run)
            && (step.Kill? ==> r.procs[p].run != SLEEPING)
            && (step.Preempt? ==> r.procs[p].run == RUNNABLE)
            && (!step.Dispatch? || s.procs[p].pc != Asleep ==> r.procs[p].pc == s.procs[p].pc)
            && forall q :: 0 <= q < |s.procs| && q != p ==> r.procs[q] == s.procs[q]
  {
  }

  predicate Acquiring(pc: Pc) {
    pc.Blocked? || pc.Sealed? || pc.Sinking? || pc.Asleep? || pc.Waking? || pc.Retry? || pc.Took?
  }

  predicate Releasing(pc: Pc) { pc.Wake? || pc.WakeHeld? }

  /** acquiresleep returns with the lock and not before, and releasesleep when it has gone through all
      processes. */
  lemma CallsReturn(s: State, step: Step, p: nat)
    requires Inv(s) && Enabled(s, step) && p < |s.procs|
    ensures |Do(s, step).procs| == |s.procs|
    ensures var r, pc := Do(s, step), s.procs[p].pc;
            && (pc == Idle ==> r.procs[p].pc == Idle || Acquiring(r.procs[p].pc))
            && (Acquiring(pc) ==>
                  Acquiring(r.procs[p].pc) || (r.procs[p].pc == Holding && r.locked && r.owner == p && pc == Took))
            && (pc == Holding ==> r.procs[p].pc == Holding || r.procs[p].pc == Wake(0))
            && (Releasing(pc) ==>
                  Releasing(r.procs[p].pc) || (r.procs[p].pc == Idle && pc.Wake? && pc.q >= |s.procs|))
  {
    StepOwner(s, step, p);
  }

  /** How many steps a process is from the end of its call, or from sleep. */
  function Left(pc: Pc, n: nat): (k: nat) {
    match pc
    case Idle | Holding | Asleep => 0
    case Took | Sinking => 1
    case Sealed => 2
    case Blocked => 3
    case Retry => 4
    case Waking => 5
    case Wake(q) => if q < n then 2 * (n - q) + 1 else 1
    case WakeHeld(q) => if q < n then 2 * (n - q) else 2
  }

  /** Once begun, acquiresleep and releasesleep come to their end, or to sleep, by their own steps. */
  lemma CallsEnd(s: State, p: nat)
    requires Inv(s) && Enabled(s, Advance(p)) && s.procs[p].pc !in {Idle, Holding}
    ensures |Do(s, Advance(p)).procs| == |s.procs|
    ensures Left(Do(s, Advance(p)).procs[p].pc, |s.procs|) < Left(s.procs[p].pc, |s.procs|)
  {
    assert ProcLock(s, p);
  }

  predicate OwnStep(step: Step) { step.Advance? || step.Dispatch? || step.Release? }

  /** A process that holds some process's lock can go on. */
  lemma HolderRuns(s: State, q: nat)
    requires Inv(s) && q < |s.procs| && s.procs[q].lock.Held?
    ensures Enabled(s, Advance(s.procs[q].lock.who))
  {
    var p := s.procs[q].lock.who;
    assert ProcLock(s, q);
    assert LockPair(s, p, q) && Fits(s.procs[p]);
  }

  /** So can the holder of the inner lock, when no process's lock is taken. */
  lemma InnerRuns(s: State)
    requires Inv(s) && s.inner.Held? && forall q :: 0 <= q < |s.procs| ==> s.procs[q].lock == Open
    ensures Enabled(s, Advance(s.inner.who))
  {
    var p := s.inner.who;
    assert HasInner(s.procs[p].pc) && Fits(s.procs[p]) && ProcLock(s, p);
    assert LockPair(s, p, p);
  }

  /** Not everybody sleeps. */
  lemma SomeoneAwake(s: State) returns (p: nat)
    requires Inv(s) && |s.procs| > 0 && s.inner == Open
    ensures p < |s.procs| && s.procs[p].run != SLEEPING
  {
    p := if s.locked then s.owner else 0;
    assert Fits(s.procs[p]) && Safe(s, p);
  }

  /** There is no deadlock: in every state of every run some step other than a kill or a preemption
      can be taken. */
  lemma NoDeadlock(s: State) returns (step: Step)
    requires Inv(s) && |s.procs| > 0
    ensures Enabled(s, step) && OwnStep(step)
  {
    if q: nat :| q < |s.procs| && s.procs[q].lock == Sched {
      return Release(q);
    } else if q: nat :| q < |s.procs| && s.procs[q].lock.Held? {
      HolderRuns(s, q);
      return Advance(s.procs[q].lock.who);
    } else if s.inner.Held? {
      InnerRuns(s);
      return Advance(s.inner.who);
    } else {
      var p := SomeoneAwake(s);
      assert Fits(s.procs[p]) && ProcLock(s, p);
      assert LockPair(s, p, p);
      return if s.procs[p].run == RUNNABLE then Dispatch(p) else Advance(p);
    }
  }
}
