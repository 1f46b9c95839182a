/** Log space: when log_write's "too big a transaction" panic can be reached, over every
    interleaving of begin_op, log_write and end_op (kernel/log.c).

    `quota` bounds the blocks one operation may add to the log; `nlog` is the superblock's
    count of log blocks, header included. */
module LogSpace {
  import opened LogDisk

  /** The logged block numbers, and for each outstanding operation how many it has added. */
  datatype State = State(lh: seq<nat>, ops: seq<nat>)

  /** `k` is the position of the calling operation among the outstanding ones. */
  datatype Step = Begin | LogWrite(k: nat, b: nat) | End(k: nat)

  const START := State([], [])

  function Min(a: int, b: int): int {
    if a < b then a else b
  }

  /** log_write compares the log with its capacity before it looks for the block in it. */
  predicate Panics(nlog: nat, s: State) {
    |s.lh| >= LOGSIZE || |s.lh| >= nlog - 1
  }

  predicate Enabled(quota: nat, nlog: nat, s: State, t: Step) {
    match t
    case Begin => |s.lh| + (|s.ops| + 1) * MAXOPBLOCKS <= LOGSIZE
    case LogWrite(k, b) => k < |s.ops| && !Panics(nlog, s) && (b in s.lh || s.ops[k] < quota)
    case End(k) => k < |s.ops|
  }

  /** The last end_op commits, which empties the log before another operation can begin. */
  function Do(s: State, t: Step): (r: State) {
    match t
    case Begin => s.(ops := s.ops + [0])
    case LogWrite(k, b) =>
      if k >= |s.ops| || b in s.lh then s else State(s.lh + [b], s.ops[k := s.ops[k] + 1])
    case End(k) =>
      if k >= |s.ops| then s
      else State(if |s.ops| == 1 then [] else s.lh, s.ops[..k] + s.ops[k + 1..])
  }

  function Exec(ts: seq<Step>): (s: State) {
    if ts == [] then START else Do(Exec(ts[..|ts| - 1]), ts[|ts| - 1])
  }

  predicate Legal(quota: nat, nlog: nat, ts: seq<Step>) {
    ts == [] || (Legal(quota, nlog, ts[..|ts| - 1]) && Enabled(quota, nlog, Exec(ts[..|ts| - 1]), ts[|ts| - 1]))
  }

  /** Some run leads to a log_write, by an operation that keeps to its quota, that panics. */
  ghost predicate PanicReachable(quota: nat, nlog: nat) {
    exists ts, k, b :: Legal(quota, nlog, ts) && PanicsAt(quota, nlog, ts, k, b)
  }

  predicate PanicsAt(quota: nat, nlog: nat, ts: seq<Step>, k: nat, b: nat) {
    var s := Exec(ts);
    k < |s.ops| && (b in s.lh || s.ops[k] < quota) && Panics(nlog, s)
  }

  // No panic below the bound

  function Unused(quota: nat, ops: seq<nat>): (n: int) {
    if ops == [] then 0 else Unused(quota, ops[..|ops| - 1]) + quota - ops[|ops| - 1]
  }

  lemma {:induction false} UnusedSplit(quota: nat, a: seq<nat>, b: seq<nat>)
    ensures Unused(quota, a + b) == Unused(quota, a) + Unused(quota, b)
  {
    if b == [] {
      assert a + b == a;
    } else {
      assert (a + b)[..|a + b| - 1] == a + b[..|b| - 1];
      UnusedSplit(quota, a, b[..|b| - 1]);
    }
  }

  lemma UnusedAt(quota: nat, ops: seq<nat>, k: nat, v: nat)
    requires k < |ops|
    ensures Unused(quota, ops[k := v]) == Unused(quota, ops) + ops[k] - v
    ensures Unused(quota, ops[..k] + ops[k + 1..]) == Unused(quota, ops) + ops[k] - quota
  {
    assert ops == ops[..k] + ([ops[k]] + ops[k + 1..]);
    assert ops[k := v] == ops[..k] + ([v] + ops[k + 1..]);
    UnusedSplit(quota, ops[..k], [ops[k]] + ops[k + 1..]);
    UnusedSplit(quota, ops[..k], [v] + ops[k + 1..]);
    UnusedSplit(quota, [ops[k]], ops[k + 1..]);
    UnusedSplit(quota, [v], ops[k + 1..]);
    UnusedSplit(quota, ops[..k], ops[k + 1..]);
  }

  lemma {:induction false} UnusedBounds(quota: nat, ops: seq<nat>)
    requires forall i :: 0 <= i < |ops| ==> ops[i] <= quota
    ensures 0 <= Unused(quota, ops) <= |ops| * quota
  {
    if ops != [] { UnusedBounds(quota, ops[..|ops| - 1]); }
  }

  lemma UnusedMore(quota: nat, ops: seq<nat>)
    requires |ops| <= 2 && forall i :: 0 <= i < |ops| ==> ops[i] <= quota
    ensures Unused(quota, ops + [0]) == Unused(quota, ops) + quota <= (|ops| + 1) * quota
  {
    UnusedBounds(quota, ops);
    assert (ops + [0])[..|ops|] == ops;
  }

  /** Blocks logged plus blocks still promised never exceed the first reservation and the quotas
      of two operations. */
  ghost predicate Reserved(quota: nat, s: State) {
    && (forall i :: 0 <= i < |s.ops| ==> s.ops[i] <= quota)
    && |s.lh| + Unused(quota, s.ops) <= MAXOPBLOCKS + 2 * quota
    && (s.ops == [] ==> s.lh == [])
  }

  lemma ReservedStep(quota: nat, nlog: nat, s: State, t: Step)
    requires quota <= MAXOPBLOCKS && Reserved(quota, s) && Enabled(quota, nlog, s, t)
    ensures Reserved(quota, Do(s, t))
  {
    hide Unused;
    match t
    case Begin =>
      UnusedMore(quota, s.ops);
    case LogWrite(k, b) =>
      UnusedAt(quota, s.ops, k, s.ops[k] + 1);
    case End(k) =>
      UnusedAt(quota, s.ops, k, 0);
  }

  lemma {:induction false} RunReserved(quota: nat, nlog: nat, ts: seq<Step>)
    requires quota <= MAXOPBLOCKS && Legal(quota, nlog, ts)
    ensures Reserved(quota, Exec(ts))
  {
    if ts != [] {
      RunReserved(quota, nlog, ts[..|ts| - 1]);
      ReservedStep(quota, nlog, Exec(ts[..|ts| - 1]), ts[|ts| - 1]);
    }
  }

  // A panic above it

  /** A run that makes the log `n` blocks long: one operation stays open throughout, ten others
      add a block each and end, and then one more uses up its quota before the first does. */
  function Climb(quota: nat, n: nat): (ts: seq<Step>) {
    if n == 0 then [Begin]
    else if n <= MAXOPBLOCKS then Climb(quota, n - 1) + [Begin, LogWrite(1, n - 1), End(1)]
    else
      (if n == MAXOPBLOCKS + 1 then Climb(quota, n - 1) + [Begin] else Climb(quota, n - 1))
      + [LogWrite(if n <= MAXOPBLOCKS + quota then 1 else 0, n - 1)]
  }

  function Upto(n: nat): (s: seq<nat>)
    ensures |s| == n && forall i :: 0 <= i < n ==> s[i] == i
  {
    if n == 0 then [] else Upto(n - 1) + [n - 1]
  }

  lemma Append(quota: nat, nlog: nat, ts: seq<Step>, t: Step)
    requires Legal(quota, nlog, ts) && Enabled(quota, nlog, Exec(ts), t)
    ensures Legal(quota, nlog, ts + [t]) && Exec(ts + [t]) == Do(Exec(ts), t)
  {
    assert (ts + [t])[..|ts|] == ts;
  }

  lemma Empty(quota: nat, nlog: nat)
    ensures Legal(quota, nlog, []) && Exec([]) == START
  {
  }

  /** Where the climb has got to when the log is `n` blocks long. */
  function Reached(quota: nat, n: nat): (s: State) {
    State(Upto(n),
          if n <= MAXOPBLOCKS then [0]
          else if n <= MAXOPBLOCKS + quota then [0, n - MAXOPBLOCKS]
          else [n - MAXOPBLOCKS - quota, quota])
  }

  lemma ClimbsByOne(quota: nat, nlog: nat, n: nat, ts: seq<Step>)
    requires 1 <= quota && 1 <= n <= Min(MAXOPBLOCKS, nlog - 1)
    requires Legal(quota, nlog, ts) && Exec(ts) == Reached(quota, n - 1)
    ensures Legal(quota, nlog, ts + [Begin, LogWrite(1, n - 1), End(1)])
    ensures Exec(ts + [Begin, LogWrite(1, n - 1), End(1)]) == Reached(quota, n)
  {
    hide Legal, Exec;
    Append(quota, nlog, ts, Begin);
    Append(quota, nlog, ts + [Begin], LogWrite(1, n - 1));
    Append(quota, nlog, ts + [Begin] + [LogWrite(1, n - 1)], End(1));
    assert ts + [Begin, LogWrite(1, n - 1), End(1)] == ts + [Begin] + [LogWrite(1, n - 1)] + [End(1)];
  }

  lemma {:induction false} Climbs(quota: nat, nlog: nat, n: nat)
    requires 1 <= quota && n <= Min(MAXOPBLOCKS + 2 * quota, Min(LOGSIZE, nlog - 1))
    ensures Legal(quota, nlog, Climb(quota, n))
    ensures Exec(Climb(quota, n)) == Reached(quota, n)
  {
    hide Legal, Exec;
    if n == 0 {
      Empty(quota, nlog);
      Append(quota, nlog, [], Begin);
      assert [] + [Begin] == [Begin];
    } else {
      Climbs(quota, nlog, n - 1);
      var ts := Climb(quota, n - 1);
      if n <= MAXOPBLOCKS {
        ClimbsByOne(quota, nlog, n, ts);
        assert Climb(quota, n) == ts + [Begin, LogWrite(1, n - 1), End(1)];
      } else {
        ClimbsHigher(quota, nlog, n, ts);
      }
    }
  }

  lemma ClimbsHigher(quota: nat, nlog: nat, n: nat, ts: seq<Step>)
    requires 1 <= quota && MAXOPBLOCKS < n <= Min(MAXOPBLOCKS + 2 * quota, Min(LOGSIZE, nlog - 1))
    requires Legal(quota, nlog, ts) && Exec(ts) == Reached(quota, n - 1)
    ensures var us := (if n == MAXOPBLOCKS + 1 then ts + [Begin] else ts)
                      + [LogWrite(if n <= MAXOPBLOCKS + quota then 1 else 0, n - 1)];
            Legal(quota, nlog, us) && Exec(us) == Reached(quota, n)
  {
    hide Legal, Exec;
    var us := ts;
    if n == MAXOPBLOCKS + 1 {
      Append(quota, nlog, ts, Begin);
      us := ts + [Begin];
    }
    Append(quota, nlog, us, LogWrite(if n <= MAXOPBLOCKS + quota then 1 else 0, n - 1));
  }

  /** The exact condition. Keeping to MAXOPBLOCKS is not enough for any log; keeping to
      MAXOPBLOCKS - 1 is enough once the log has LOGSIZE blocks, as mkfs makes it. */
  lemma PanicCondition(quota: nat, nlog: nat)
    requires 1 <= quota
    ensures PanicReachable(quota, nlog) <==> MAXOPBLOCKS + 2 * quota >= Min(LOGSIZE, nlog - 1)
  {
    if MAXOPBLOCKS + 2 * quota >= Min(LOGSIZE, nlog - 1) {
      var n := if nlog == 0 then 0 else Min(LOGSIZE, nlog - 1);
      if nlog == 0 {
        Append(quota, nlog, [], Begin);
        assert PanicsAt(quota, nlog, [] + [Begin], 0, 0);
      } else {
        Climbs(quota, nlog, n);
        assert n > 0 ==> Upto(n)[0] == 0;
        assert PanicsAt(quota, nlog, Climb(quota, n), 0, 0);
      }
    } else {
      forall ts, k, b | Legal(quota, nlog, ts) ensures !PanicsAt(quota, nlog, ts, k, b) {
        RunReserved(quota, nlog, ts);
        UnusedBounds(quota, Exec(ts).ops);
      }
    }
  }

  lemma DocumentedBounds(nlog: nat)
    ensures PanicReachable(MAXOPBLOCKS, nlog)
    ensures PanicReachable(MAXOPBLOCKS - 1, nlog) <==> nlog < LOGSIZE
  {
    PanicCondition(MAXOPBLOCKS, nlog);
    PanicCondition(MAXOPBLOCKS - 1, nlog);
  }
}
