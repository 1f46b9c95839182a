/** Spin locks (kernel/spinlock.c) as the other modules see them. */
module SpinLock {
  /** Free, held by a process, or by the scheduler that a process switched to and that releases it. */
  datatype Lock = Open | Held(who: nat) | Sched
}
