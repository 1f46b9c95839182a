/** The virtqueue protocol of kernel/virtio_disk.c (sections 2.6 and 5.2 of Virtio 1.1), as every
    interleaving of requests, device and interrupt steps. */
module Virtqueue {
  import opened Basics
  import opened Descriptors

  /** Ring indices are 16 bits wide. */
  const WRAP := 0x1_0000

  datatype Order = Request(out: bool, sector: nat)

  /** info[]: the buffer a request is for, and the status byte, zero when the device has done it. */
  datatype Info = Info(b: Option<nat>, ok: bool)

  /** Where a request is; only the proof looks at this. */
  datatype Stage = Posted | Avail | Serving | Served | Placed | Used | Reaped

  /** A call of virtio_disk_rw: its request, its idx[], b->disk, and the stage. */
  datatype Call = Call(req: Order, d0: nat, d1: nat, d2: nat, disk: bool, at: Stage)

  /** What the device moved for a buffer since its request was posted. */
  datatype Disk = Disk(
    free: seq<bool>, desc: seq<Desc>, info: seq<Info>, ops: seq<Order>,
    ring: seq<nat>, availIdx: nat,          // avail
    used: seq<nat>, usedIdx: nat,           // used
    seen: nat,                              // used_idx, how far the driver has looked
    calls: map<nat, Call>, lock: Option<nat>,
    fetched: nat, serving: set<nat>, served: set<nat>, placed: Option<nat>,   // the device
    moved: map<nat, Order>,
    availQ: seq<nat>, usedQ: seq<nat>)      // the unread entries of the rings, for the proof

  datatype Step =
    | Post(b: nat, req: Order, idx: seq<nat>)   // allocate, format, write the ring entry
    | Bump(b: nat)                                // advance avail->idx, and sleep
    | Fetch                                       // the device reads a ring entry
    | Serve(h: nat)                               // it does the transfer and writes the status
    | Place(h: nat)                               // it writes a used entry
    | Publish                                     // it advances used->idx
    | Intr                                        // one turn of virtio_disk_intr's loop
    | Finish(b: nat)                              // the call sees b->disk clear and frees its chain

  function Inc(i: nat): nat { (i + 1) % WRAP }

  ghost predicate Enabled(s: Disk, step: Step) {
    match step {
      case Post(b, req, idx) => s.lock == None && b !in s.calls && |idx| == 3 && Picks(s.free, idx)
      case Bump(b) => s.lock == Some(b)
      case Fetch => s.fetched != s.availIdx
      case Serve(h) => h in s.serving
      case Place(h) => h in s.served && s.placed == None
      case Publish => s.placed != None
      case Intr => s.lock == None && s.seen != s.usedIdx
      case Finish(b) => s.lock == None && b in s.calls && !s.calls[b].disk
    }
  }

  /** The three descriptors, the header, the ring entry. */
  function Format(s: Disk, b: nat, req: Order, d0: nat, d1: nat, d2: nat): (r: Disk)
    requires Sized(s) && d0 < NUM && d1 < NUM && d2 < NUM
  {
    s.(free := s.free[d0 := false][d1 := false][d2 := false],
       ops := s.ops[d0 := req],
       desc := s.desc[d0 := Desc(Header(d0), 16, true, false, d1)]
               [d1 := Desc(Data(b), 1024, true, !req.out, d2)]
               [d2 := Desc(Status(d0), 1, false, true, 0)],
       info := s.info[d0 := Info(Some(b), false)],
       ring := s.ring[s.availIdx % NUM := d0],
       calls := s.calls[b := Call(req, d0, d1, d2, true, Posted)],
       lock := Some(b), moved := s.moved - {b})
  }

  ghost predicate Sized(s: Disk) {
    && |s.free| == NUM && |s.desc| == NUM && |s.info| == NUM && |s.ops| == NUM && |s.ring| == NUM && |s.used| == NUM
    && s.availIdx < WRAP && s.usedIdx < WRAP && s.seen < WRAP && s.fetched < WRAP
  }

  /** The call that the request with head `h` belongs to is put at another stage. */
  function Moved(s: Disk, h: nat, at: Stage): (r: map<nat, Call>)
    requires Sized(s)
  {
    if h < NUM && s.info[h].b.Some? && s.info[h].b.value in s.calls
    then s.calls[s.info[h].b.value := s.calls[s.info[h].b.value].(at := at)] else s.calls
  }

  /** The device follows the chain from `h`: header, data, status. */
  function Transfer(s: Disk, h: nat): (r: Disk)
    requires Sized(s)
  {
    if h >= NUM then s else
      var d1 := s.desc[h].next;
      if d1 >= NUM then s else
        var d2 := s.desc[d1].next;
        if d2 >= NUM || !s.desc[h].addr.Header? || !s.desc[d1].addr.Data? || !s.desc[d2].addr.Status?
           || s.desc[h].addr.head >= NUM || s.desc[d2].addr.head >= NUM then s
        else
          var k := s.desc[d2].addr.head;
          s.(moved := s.moved[s.desc[d1].addr.buf := s.ops[s.desc[h].addr.head]],
             info := s.info[k := s.info[k].(ok := true)])
  }

  function Do(s: Disk, step: Step): (r: Disk)
    requires Sized(s)
  {
    match step {
      case Post(b, req, idx) =>
        if |idx| == 3 && idx[0] < NUM && idx[1] < NUM && idx[2] < NUM
        then Format(s, b, req, idx[0], idx[1], idx[2]) else s
      case Bump(b) =>
        var h := s.ring[s.availIdx % NUM];
        s.(availIdx := Inc(s.availIdx), lock := None, availQ := s.availQ + [h], calls := Moved(s, h, Avail))
      case Fetch =>
        var h := s.ring[s.fetched % NUM];
        s.(fetched := Inc(s.fetched), serving := s.serving + {h},
           availQ := if s.availQ == [] then [] else s.availQ[1..], calls := Moved(s, h, Serving))
      case Serve(h) =>
        Transfer(s, h).(serving := s.serving - {h}, served := s.served + {h}, calls := Moved(s, h, Served))
      case Place(h) =>
        s.(used := s.used[s.usedIdx % NUM := h], placed := Some(h), served := s.served - {h},
            calls := Moved(s, h, Placed))
      case Publish =>
        var h := s.used[s.usedIdx % NUM];
        s.(usedIdx := Inc(s.usedIdx), placed := None, usedQ := s.usedQ + [h], calls := Moved(s, h, Used))
      case Intr =>
        var id := s.used[s.seen % NUM];
        var r := s.(seen := Inc(s.seen), usedQ := if s.usedQ == [] then [] else s.usedQ[1..]);
        if id < NUM && s.info[id].b.Some? && s.info[id].b.value in s.calls
        then r.(calls := s.calls[s.info[id].b.value := s.calls[s.info[id].b.value].(disk := false, at := Reaped)])
        else r
      case Finish(b) =>
        if b in s.calls && s.calls[b].d0 < NUM then
          var h := s.calls[b].d0;
          var c := ChainFrom(s.desc, h, NUM);
          s.(info := s.info[h := s.info[h].(b := None)], calls := s.calls - {b},
             free := seq(NUM, d requires 0 <= d < NUM => s.free[d] || d in c),
             desc := seq(NUM, d requires 0 <= d < NUM => if d in c then Cleared() else s.desc[d]))
        else s
    }
  }

  /** The descriptors that free_chain visits, at most `n`. */
  function ChainFrom(desc: seq<Desc>, i: nat, n: nat): (c: seq<nat>)
    requires |desc| == NUM
    decreases n
  {
    if n == 0 || i >= NUM then [] else [i] + if desc[i].next_ then ChainFrom(desc, desc[i].next, n - 1) else []
  }

  function Init(): (s: Disk) {
    Disk(seq(NUM, _ => true), seq(NUM, _ => Cleared()), seq(NUM, _ => Info(None, false)),
        seq(NUM, _ => Request(false, 0)),
         seq(NUM, _ => 0), 0, seq(NUM, _ => 0), 0, 0, map[], None, 0, {}, {}, None, map[], [], [])
  }

  // The invariant

  ghost predicate Mine(c: Call, d: nat) { d == c.d0 || d == c.d1 || d == c.d2 }

  /** The request with head `h` is at stage `at`. */
  ghost predicate HeadAt(s: Disk, h: nat, at: Stage) {
    && h < NUM && |s.info| == NUM && s.info[h].b.Some? && s.info[h].b.value in s.calls
    && s.calls[s.info[h].b.value].d0 == h && s.calls[s.info[h].b.value].at == at
  }

  ghost predicate Formatted(s: Disk, b: nat)
    requires Sized(s) && b in s.calls
  {
    var c := s.calls[b];
    && c.d0 < NUM && c.d1 < NUM && c.d2 < NUM && c.d0 != c.d1 && c.d1 != c.d2 && c.d0 != c.d2
    && !s.free[c.d0] && !s.free[c.d1] && !s.free[c.d2]
    && s.ops[c.d0] == c.req && s.info[c.d0].b == Some(b)
    && s.desc[c.d0] == Desc(Header(c.d0), 16, true, false, c.d1)
    && s.desc[c.d1] == Desc(Data(b), 1024, true, !c.req.out, c.d2)
    && s.desc[c.d2] == Desc(Status(c.d0), 1, false, true, 0)
  }

  ghost predicate Staged(s: Disk, b: nat)
    requires Sized(s) && b in s.calls && s.calls[b].d0 < NUM
  {
    var c := s.calls[b];
    && (c.disk <==> c.at != Reaped)
    && (c.at == Posted <==> s.lock == Some(b))
    && (c.at == Avail <==> c.d0 in s.availQ)
    && (c.at == Serving <==> c.d0 in s.serving)
    && (c.at == Served <==> c.d0 in s.served)
    && (c.at == Placed <==> s.placed == Some(c.d0))
    && (c.at == Used <==> c.d0 in s.usedQ)
    && (s.info[c.d0].ok <==> c.at in {Served, Placed, Used, Reaped})
    && (s.info[c.d0].ok ==> b in s.moved && s.moved[b] == c.req)
  }

  ghost predicate Disjoint(s: Disk, b: nat, c: nat)
    requires b in s.calls && c in s.calls
  {
    b != c ==> forall d :: !(Mine(s.calls[b], d) && Mine(s.calls[c], d))
  }

  /** `q` is what lies between two 16-bit indices of a ring. */
  ghost predicate Between(ring: seq<nat>, from: nat, to: nat, q: seq<nat>) {
    && |ring| == NUM && |q| < NUM && to == (from + |q|) % WRAP
    && (forall k :: 0 <= k < |q| ==> ring[(from + k) % NUM] == q[k])
    && (forall k, l :: 0 <= k < l < |q| ==> q[k] != q[l])
  }

  ghost predicate Owned(s: Disk, d: nat) {
    exists b :: b in s.calls && Mine(s.calls[b], d)
  }

  ghost predicate Chains(s: Disk) {
    && Sized(s) && (forall b :: b in s.calls ==> Formatted(s, b))
    && (forall b, c :: b in s.calls && c in s.calls ==> Disjoint(s, b, c))
  }

  ghost predicate AllOwned(s: Disk) {
    forall d :: 0 <= d < |s.free| && !s.free[d] ==> Owned(s, d)
  }

  ghost predicate AllStaged(s: Disk)
    requires Chains(s)
  {
    forall b :: b in s.calls ==> Staged(s, b)
  }

  /** Unread entries, and those in the device's hands, name requests at the stage they should be. */
  ghost predicate Rings(s: Disk)
    requires Sized(s)
  {
    && Between(s.ring, s.fetched, s.availIdx, s.availQ) && Between(s.used, s.seen, s.usedIdx, s.usedQ)
    && (forall h :: h in s.availQ ==> HeadAt(s, h, Avail))
    && (forall h :: h in s.usedQ ==> HeadAt(s, h, Used))
    && (forall h :: h in s.serving ==> HeadAt(s, h, Serving))
    && (forall h :: h in s.served ==> HeadAt(s, h, Served))
    && (s.lock.Some? ==> s.lock.value in s.calls && s.ring[s.availIdx % NUM] == s.calls[s.lock.value].d0)
    && (s.placed.Some? ==> HeadAt(s, s.placed.value, Placed) && s.used[s.usedIdx % NUM] == s.placed.value)
  }

  ghost predicate Inv(s: Disk) {
    Chains(s) && AllOwned(s) && AllStaged(s) && Rings(s)
  }

  lemma InitInv()
    ensures Inv(Init())
  {
  }

  // Rings across the wrap of their indices

  lemma Slots(from: nat, n: nat, k: nat)
    requires k < n < NUM
    ensures (from + k) % NUM != (from + n) % WRAP % NUM
    ensures (from + n) % WRAP % NUM == (from + n) % NUM
  {
    Shifted(NUM, (from + n) % WRAP, WRAP / NUM * ((from + n) / WRAP));
    RemApart(NUM, from + k, n - k);
  }

  /** Writing the entry at the producer's index overwrites nothing unread. */
  lemma WriteNext(ring: seq<nat>, from: nat, to: nat, q: seq<nat>, h: nat)
    requires Between(ring, from, to, q)
    ensures Between(ring[to % NUM := h], from, to, q)
  {
    forall k | 0 <= k < |q| ensures ring[to % NUM := h][(from + k) % NUM] == q[k] {
      Slots(from, |q|, k);
    }
  }

  lemma Push(ring: seq<nat>, from: nat, to: nat, q: seq<nat>, h: nat)
    requires Between(ring, from, to, q) && ring[to % NUM] == h && |q| + 1 < NUM && h !in q
    ensures Between(ring, from, Inc(to), q + [h])
  {
    if |q| > 0 {
      Slots(from, |q|, 0);
    } else {
      assert (from + 0) % WRAP % NUM == from % NUM by { Slots(from, 1, 0); WrapNum(from); }
    }
    IncWrap(from, |q|);
  }

  lemma WrapNum(i: nat)
    ensures i % WRAP % NUM == i % NUM
  {
    assert i == WRAP * (i / WRAP) + i % WRAP;
  }

  lemma IncWrap(from: nat, n: nat)
    ensures Inc((from + n) % WRAP) == (from + n + 1) % WRAP
  {
  }

  lemma Pop(ring: seq<nat>, from: nat, to: nat, q: seq<nat>)
    requires Between(ring, from, to, q) && from != to && from < WRAP
    ensures q != [] && ring[from % NUM] == q[0] && Between(ring, Inc(from), to, q[1..]) && q[0] !in q[1..]
  {
    assert (from + 0) % NUM == from % NUM;
    IncPlus(from, |q| - 1);
    forall k | 0 <= k < |q| - 1 ensures ring[(Inc(from) + k) % NUM] == q[1..][k] {
      IncPlus(from, k);
      assert q[1..][k] == q[k + 1];
    }
  }

  lemma IncPlus(from: nat, k: nat)
    requires from < WRAP
    ensures (Inc(from) + k) % NUM == (from + (k + 1)) % NUM && (Inc(from) + k) % WRAP == (from + (k + 1)) % WRAP
  {
    if from + 1 < WRAP {
      assert Inc(from) == from + 1;
    } else {
      assert Inc(from) == 0 && from + (k + 1) == WRAP + k; Turns(k);
    }
  }

  lemma Turns(k: nat)
    ensures (WRAP + k) % NUM == k % NUM && (WRAP + k) % WRAP == k % WRAP
  {
    Shifted(NUM, k, WRAP / NUM);
    Shifted(WRAP, k, 1);
  }

  // At most two requests

  ghost predicate Head(s: Disk, h: nat) {
    && h < NUM && |s.info| == NUM && s.info[h].b.Some? && s.info[h].b.value in s.calls
    && s.calls[s.info[h].b.value].d0 == h
  }

  ghost function Trio(c: Call): (r: set<nat>) { {c.d0, c.d1, c.d2} }

  lemma TrioCard(s: Disk, b: nat)
    requires Sized(s) && b in s.calls && Formatted(s, b)
    ensures |Trio(s.calls[b])| == 3 && Trio(s.calls[b]) <= {0, 1, 2, 3, 4, 5, 6, 7}
  {
  }

  lemma Apart(s: Disk, a: nat, b: nat)
    requires a in s.calls && b in s.calls && a != b && Disjoint(s, a, b)
    ensures Trio(s.calls[a]) !! Trio(s.calls[b])
  {
    forall d | d in Trio(s.calls[a]) ensures d !in Trio(s.calls[b]) {
      assert Mine(s.calls[a], d);
    }
  }

  lemma NoThree(s: Disk, a: nat, b: nat, c: nat)
    requires Chains(s) && a in s.calls && b in s.calls && c in s.calls
    ensures a == b || b == c || a == c
  {
    if a != b && b != c && a != c {
      TrioCard(s, a);
      TrioCard(s, b);
      TrioCard(s, c);
      Apart(s, a, b);
      Apart(s, b, c);
      Apart(s, a, c);
      hide *;
      NineInEight(Trio(s.calls[a]), Trio(s.calls[b]), Trio(s.calls[c]), {0, 1, 2, 3, 4, 5, 6, 7});
    }
  }

  /** Three disjoint sets of three do not fit into eight. */
  lemma NineInEight(x: set<nat>, y: set<nat>, z: set<nat>, all: set<nat>)
    requires |x| == |y| == |z| == 3 && x !! y && y !! z && x !! z && x <= all && y <= all && z <= all
    ensures |all| >= 9
  {
    assert |x + y| == 6;
    assert |x + y + z| == 9;
    SubsetCard(x + y + z, all);
  }

  lemma AtMostTwo(s: Disk, q: seq<nat>)
    requires Chains(s) && forall k :: 0 <= k < |q| ==> Head(s, q[k])
    requires forall k, l :: 0 <= k < l < |q| ==> q[k] != q[l]
    ensures |q| <= 2
  {
    if |q| > 2 {
      assert Head(s, q[0]) && Head(s, q[1]) && Head(s, q[2]);
      NoThree(s, s.info[q[0]].b.value, s.info[q[1]].b.value, s.info[q[2]].b.value);
    }
  }

  // Steps that only move a request on

  predicate Moves(step: Step) { step.Bump? || step.Fetch? || step.Serve? || step.Place? || step.Publish? || step.Intr? }

  /** The head of the request that such a step moves, and where to. */
  function Moving(s: Disk, step: Step): (h: nat)
    requires Sized(s) && Moves(step)
  {
    match step {
      case Bump(_) => s.ring[s.availIdx % NUM]
      case Fetch => s.ring[s.fetched % NUM]
      case Serve(h) => h
      case Place(h) => h
      case Publish => s.used[s.usedIdx % NUM]
      case Intr => s.used[s.seen % NUM]
    }
  }

  function Stages(step: Step): (r: (Stage, Stage))
    requires Moves(step)
  {
    match step {
      case Bump(_) => (Posted, Avail)
      case Fetch => (Avail, Serving)
      case Serve(_) => (Serving, Served)
      case Place(_) => (Served, Placed)
      case Publish => (Placed, Used)
      case Intr => (Used, Reaped)
    }
  }

  /** What a step moves on is a request, at the stage before. */
  lemma MovingHead(s: Disk, step: Step)
    requires Inv(s) && Moves(step) && Enabled(s, step)
    ensures HeadAt(s, Moving(s, step), Stages(step).0)
    ensures step.Fetch? ==> s.availQ != [] && Moving(s, step) == s.availQ[0]
    ensures step.Intr? ==> s.usedQ != [] && Moving(s, step) == s.usedQ[0]
  {
    match step {
      case Bump(b) => assert Formatted(s, b) && Staged(s, b);
      case Fetch => Pop(s.ring, s.fetched, s.availIdx, s.availQ); assert s.availQ[0] in s.availQ;
      case Intr => Pop(s.used, s.seen, s.usedIdx, s.usedQ); assert s.usedQ[0] in s.usedQ;
      case _ =>
    }
  }

  ghost predicate SameCall(x: Call, y: Call) {
    x.req == y.req && x.d0 == y.d0 && x.d1 == y.d1 && x.d2 == y.d2
  }

  lemma KeepFormatted(s: Disk, r: Disk, b: nat)
    requires Sized(s) && Sized(r) && b in s.calls && b in r.calls && Formatted(s, b) && SameCall(s.calls[b], r.calls[b])
    requires r.free == s.free && r.desc == s.desc && r.ops == s.ops
    requires r.info[s.calls[b].d0].b == s.info[s.calls[b].d0].b
    ensures Formatted(r, b)
  {
  }

  lemma KeepDisjoint(s: Disk, r: Disk, b: nat, c: nat)
    requires b in s.calls && b in r.calls && c in s.calls && c in r.calls && Disjoint(s, b, c)
    requires SameCall(s.calls[b], r.calls[b]) && SameCall(s.calls[c], r.calls[c])
    ensures Disjoint(r, b, c)
  {
    assert forall d :: Mine(r.calls[b], d) == Mine(s.calls[b], d) && Mine(r.calls[c], d) == Mine(s.calls[c], d);
  }

  lemma KeepOwned(s: Disk, r: Disk, d: nat)
    requires Owned(s, d) && r.calls.Keys == s.calls.Keys
    requires forall b :: b in s.calls ==> SameCall(s.calls[b], r.calls[b])
    ensures Owned(r, d)
  {
    var b :| b in s.calls && Mine(s.calls[b], d);
    assert SameCall(s.calls[b], r.calls[b]);
    assert b in r.calls && Mine(r.calls[b], d);
  }

  /** Nothing about descriptors and their owners has changed. */
  ghost predicate SameChains(s: Disk, r: Disk)
    requires Sized(s)
  {
    && Sized(r) && r.free == s.free && r.desc == s.desc && r.ops == s.ops
    && (forall d :: 0 <= d < NUM ==> r.info[d].b == s.info[d].b)
    && r.calls.Keys == s.calls.Keys && forall b :: b in s.calls ==> SameCall(s.calls[b], r.calls[b])
  }

  lemma KeepChains(s: Disk, r: Disk)
    requires Chains(s) && AllOwned(s) && SameChains(s, r)
    ensures Chains(r) && AllOwned(r)
  {
    hide Disjoint, Owned, SameCall, Mine;
    forall b | b in r.calls ensures Formatted(r, b) {
      assert Formatted(s, b) && SameCall(s.calls[b], r.calls[b]);
      KeepFormatted(s, r, b);
    }
    forall b, c | b in r.calls && c in r.calls ensures Disjoint(r, b, c) {
      assert Disjoint(s, b, c) && SameCall(s.calls[b], r.calls[b]) && SameCall(s.calls[c], r.calls[c]);
      KeepDisjoint(s, r, b, c);
    }
    forall d | 0 <= d < NUM && !r.free[d] ensures Owned(r, d) {
      assert Owned(s, d);
      KeepOwned(s, r, d);
    }
  }

  /** The device, following the chain of a request, moves that request's data and status. */
  lemma Transfers(s: Disk, h: nat)
    requires Chains(s) && HeadAt(s, h, Serving)
    ensures var b := s.info[h].b.value;
            Transfer(s, h) == s.(moved := s.moved[b := s.calls[b].req], info := s.info[h := s.info[h].(ok := true)])
  {
    assert Formatted(s, s.info[h].b.value);
  }

  /** A step that moves request `h` on, with what the rings and the device say about it. */
  ghost predicate Ready(s: Disk, step: Step)
    requires Sized(s) && Moves(step)
  {
    var h := Moving(s, step);
    && Enabled(s, step) && HeadAt(s, h, Stages(step).0)
    && (step.Bump? ==> s.info[h].b == s.lock)
    && (step.Publish? ==> s.placed == Some(h))
    && (step.Fetch? ==> s.availQ != [] && h == s.availQ[0] && h !in s.availQ[1..] && s.availQ == [h] + s.availQ[1..])
    && (step.Intr? ==> s.usedQ != [] && h == s.usedQ[0] && h !in s.usedQ[1..] && s.usedQ == [h] + s.usedQ[1..])
    && (step.Serve? ==> var b := s.info[h].b.value;
          Transfer(s, h) == s.(moved := s.moved[b := s.calls[b].req], info := s.info[h := s.info[h].(ok := true)]))
  }

  lemma MoveReady(s: Disk, step: Step)
    requires Inv(s) && Moves(step) && Enabled(s, step)
    ensures Ready(s, step)
  {
    hide Transfer, Moving, Between, Formatted, Disjoint, AllOwned;
    MovingHead(s, step);
    if step.Serve? { MovingServe(s, step); Transfers(s, step.h); }
    assert Staged(s, s.info[Moving(s, step)].b.value);
    if step.Fetch? { Pop(s.ring, s.fetched, s.availIdx, s.availQ); }
    if step.Intr? { Pop(s.used, s.seen, s.usedIdx, s.usedQ); }
  }

  lemma MovingServe(s: Disk, step: Step)
    requires Sized(s) && step.Serve?
    ensures Moving(s, step) == step.h
  {
  }

  lemma MoveChains(s: Disk, step: Step)
    requires Sized(s) && Moves(step) && Ready(s, step)
    ensures SameChains(s, Do(s, step))
  {
    hide Transfer;
  }

  lemma DeviceStaged(s: Disk, step: Step, b: nat)
    requires Sized(s) && Moves(step) && (step.Serve? || step.Place? || step.Publish?) && Ready(s, step)
    requires b in s.calls && s.calls[b].d0 < NUM && Staged(s, b)
    requires s.info[s.calls[b].d0].b == Some(b)
    ensures Sized(Do(s, step)) && b in Do(s, step).calls && Do(s, step).calls[b].d0 == s.calls[b].d0
    ensures Staged(Do(s, step), b)
  {
    hide Transfer;
  }

  lemma DriverStaged(s: Disk, step: Step, b: nat)
    requires Sized(s) && Moves(step) && (step.Bump? || step.Fetch? || step.Intr?) && Ready(s, step) && b in s.calls
    requires s.calls[b].d0 < NUM && Staged(s, b)
    requires s.info[s.calls[b].d0].b == Some(b)
    ensures Sized(Do(s, step)) && b in Do(s, step).calls && Do(s, step).calls[b].d0 == s.calls[b].d0
    ensures Staged(Do(s, step), b)
  {
    hide Transfer;
  }

  lemma MoveStaged(s: Disk, step: Step, b: nat)
    requires Sized(s) && Moves(step) && Ready(s, step) && b in s.calls && s.calls[b].d0 < NUM && Staged(s, b)
    requires s.info[s.calls[b].d0].b == Some(b)
    ensures Sized(Do(s, step)) && b in Do(s, step).calls && Do(s, step).calls[b].d0 == s.calls[b].d0
    ensures Staged(Do(s, step), b)
  {
    if step.Serve? || step.Place? || step.Publish? { DeviceStaged(s, step, b); } else { DriverStaged(s, step, b); }
    hide *;
  }

  lemma MoveHead(s: Disk, step: Step, g: nat, at: Stage)
    requires Sized(s) && Moves(step) && Ready(s, step) && HeadAt(s, g, at)
    ensures HeadAt(Do(s, step), g, if g == Moving(s, step) then Stages(step).1 else at)
  {
    hide Transfer;
  }

  lemma QueuesShort(s: Disk, q: seq<nat>, at: Stage, h: nat, x: Stage)
    requires Chains(s) && (forall g :: g in q ==> HeadAt(s, g, at)) && HeadAt(s, h, x) && x != at
    requires forall k, l :: 0 <= k < l < |q| ==> q[k] != q[l]
    ensures |q| + 1 < NUM && h !in q
  {
    hide Formatted, Disjoint;
    assert h !in q;
    forall k | 0 <= k < |q + [h]| ensures Head(s, (q + [h])[k]) {
      if k < |q| { assert q[k] in q; }
    }
    AtMostTwo(s, q + [h]);
  }

  lemma MoveBetween(s: Disk, step: Step)
    requires Chains(s) && Rings(s) && Moves(step) && Ready(s, step)
    ensures Between(Do(s, step).ring, Do(s, step).fetched, Do(s, step).availIdx, Do(s, step).availQ)
    ensures Between(Do(s, step).used, Do(s, step).seen, Do(s, step).usedIdx, Do(s, step).usedQ)
  {
    var h := Moving(s, step);
    match step {
      case Bump(_) => QueuesShort(s, s.availQ, Avail, h, Posted); Push(s.ring, s.fetched, s.availIdx, s.availQ, h);
      case Publish => QueuesShort(s, s.usedQ, Used, h, Placed); Push(s.used, s.seen, s.usedIdx, s.usedQ, h);
      case Fetch => Pop(s.ring, s.fetched, s.availIdx, s.availQ);
      case Intr => Pop(s.used, s.seen, s.usedIdx, s.usedQ);
      case Place(_) => WriteNext(s.used, s.seen, s.usedIdx, s.usedQ, h);
      case Serve(_) =>
    }
  }

  lemma MoveAvail(s: Disk, step: Step, g: nat)
    requires Chains(s) && Rings(s) && Moves(step) && Ready(s, step) && g in Do(s, step).availQ
    ensures HeadAt(Do(s, step), g, Avail)
  {
    hide Between, Formatted, Disjoint, Transfer;
    var h := Moving(s, step);
    assert g in s.availQ || (step.Bump? && g == h);
    assert step.Fetch? ==> g != h;
    MoveHead(s, step, g, if g in s.availQ then Avail else Posted);
  }

  lemma MoveUsed(s: Disk, step: Step, g: nat)
    requires Chains(s) && Rings(s) && Moves(step) && Ready(s, step) && g in Do(s, step).usedQ
    ensures HeadAt(Do(s, step), g, Used)
  {
    hide Between, Formatted, Disjoint, Transfer;
    var h := Moving(s, step);
    assert g in s.usedQ || (step.Publish? && g == h);
    assert step.Intr? ==> g != h;
    MoveHead(s, step, g, if g in s.usedQ then Used else Placed);
  }

  lemma MoveServing(s: Disk, step: Step, g: nat)
    requires Chains(s) && Rings(s) && Moves(step) && Ready(s, step)
    ensures g in Do(s, step).serving ==> HeadAt(Do(s, step), g, Serving)
    ensures g in Do(s, step).served ==> HeadAt(Do(s, step), g, Served)
  {
    hide Between, Formatted, Disjoint, Transfer;
    if g in Do(s, step).serving { MoveHead(s, step, g, if g in s.serving then Serving else Avail); }
    if g in Do(s, step).served { MoveHead(s, step, g, if g in s.served then Served else Serving); }
  }

  lemma MoveHands(s: Disk, step: Step)
    requires Chains(s) && Rings(s) && Moves(step) && Ready(s, step) && Sized(Do(s, step))
    ensures var r := Do(s, step);
            && (r.lock.Some? ==> r.lock.value in r.calls && r.ring[r.availIdx % NUM] == r.calls[r.lock.value].d0)
            && (r.placed.Some? ==> HeadAt(r, r.placed.value, Placed) && r.used[r.usedIdx % NUM] == r.placed.value)
  {
    hide Between, Formatted, Disjoint, Transfer;
    if Do(s, step).placed.Some? { MoveHead(s, step, Do(s, step).placed.value, if step.Place? then Served else Placed); }
  }

  lemma MoveRings(s: Disk, step: Step)
    requires Chains(s) && Rings(s) && Moves(step) && Ready(s, step) && Sized(Do(s, step))
    ensures Rings(Do(s, step))
  {
    hide Do, Transfer, Between, HeadAt, Formatted, Disjoint, Ready;
    MoveBetween(s, step);
    MoveHands(s, step);
    var r := Do(s, step);
    forall g | g in r.availQ ensures HeadAt(r, g, Avail) { MoveAvail(s, step, g); }
    forall g | g in r.usedQ ensures HeadAt(r, g, Used) { MoveUsed(s, step, g); }
    forall g | g in r.serving ensures HeadAt(r, g, Serving) { MoveServing(s, step, g); }
    forall g | g in r.served ensures HeadAt(r, g, Served) { MoveServing(s, step, g); }
  }

  lemma MoveInv(s: Disk, step: Step)
    requires Inv(s) && Moves(step) && Enabled(s, step)
    ensures Inv(Do(s, step))
  {
    MoveReady(s, step);
    hide Do, Formatted, Disjoint, Staged, Ready;
    MoveChains(s, step);
    KeepChains(s, Do(s, step));
    MoveRings(s, step);
    forall b | b in Do(s, step).calls ensures Staged(Do(s, step), b) {
      Belongs(s, b);
      MoveStaged(s, step, b);
    }
  }

  lemma Belongs(s: Disk, b: nat)
    requires Chains(s) && b in s.calls
    ensures s.calls[b].d0 < NUM && s.info[s.calls[b].d0].b == Some(b)
  {
    assert Formatted(s, b);
  }

  // Posting a request

  lemma PostFormatted(s: Disk, b: nat, req: Order, d0: nat, d1: nat, d2: nat, c: nat)
    requires Sized(s) && d0 < d1 < d2 < NUM && s.free[d0] && s.free[d1] && s.free[d2]
    requires c == b || (c in s.calls && Formatted(s, c))
    ensures Sized(Format(s, b, req, d0, d1, d2)) && Formatted(Format(s, b, req, d0, d1, d2), c)
  {
  }

  lemma PostDisjoint(s: Disk, b: nat, req: Order, d0: nat, d1: nat, d2: nat, c: nat, e: nat)
    requires Chains(s) && d0 < d1 < d2 < NUM && s.free[d0] && s.free[d1] && s.free[d2] && b !in s.calls
    requires (c == b || c in s.calls) && (e == b || e in s.calls)
    ensures Disjoint(Format(s, b, req, d0, d1, d2), c, e)
  {
    var r := Format(s, b, req, d0, d1, d2);
    if c != b { assert Formatted(s, c); }
    if e != b { assert Formatted(s, e); }
    if c != b && e != b && c != e {
      assert Disjoint(s, c, e);
      assert r.calls[c] == s.calls[c] && r.calls[e] == s.calls[e];
    }
  }

  lemma PostOwned(s: Disk, b: nat, req: Order, d0: nat, d1: nat, d2: nat, d: nat)
    requires Sized(s) && AllOwned(s) && d0 < NUM && d1 < NUM && d2 < NUM && d < NUM && b !in s.calls
    requires !Format(s, b, req, d0, d1, d2).free[d]
    ensures Owned(Format(s, b, req, d0, d1, d2), d)
  {
    var r := Format(s, b, req, d0, d1, d2);
    if d == d0 || d == d1 || d == d2 {
      assert Mine(r.calls[b], d);
    } else {
      assert Owned(s, d);
      var c :| c in s.calls && Mine(s.calls[c], d);
      assert Mine(r.calls[c], d);
    }
  }

  /** A free descriptor is the head of no request. */
  lemma FreeNoHead(s: Disk, h: nat, at: Stage)
    requires Chains(s) && HeadAt(s, h, at)
    ensures !s.free[h]
  {
    assert Formatted(s, s.info[h].b.value);
  }

  lemma FreshHead(s: Disk, d: nat)
    requires Chains(s) && Rings(s) && d < NUM && s.free[d]
    ensures d !in s.availQ && d !in s.usedQ && d !in s.serving && d !in s.served && s.placed != Some(d)
  {
    hide Formatted, Disjoint, Between, HeadAt;
    forall at | HeadAt(s, d, at) ensures false { FreeNoHead(s, d, at); }
  }

  lemma PostStaged(s: Disk, b: nat, req: Order, d0: nat, d1: nat, d2: nat, c: nat)
    requires Sized(s) && d0 < d1 < d2 < NUM && s.free[d0] && s.free[d1] && s.free[d2] && s.lock == None
    requires d0 !in s.availQ && d0 !in s.usedQ && d0 !in s.serving && d0 !in s.served && s.placed != Some(d0)
    requires c == b || (c in s.calls && Formatted(s, c) && Staged(s, c))
    ensures c in Format(s, b, req, d0, d1, d2).calls && Format(s, b, req, d0, d1, d2).calls[c].d0 < NUM
    ensures Sized(Format(s, b, req, d0, d1, d2)) && Staged(Format(s, b, req, d0, d1, d2), c)
  {
  }

  lemma PostHead(s: Disk, b: nat, req: Order, d0: nat, d1: nat, d2: nat, g: nat, at: Stage)
    requires Sized(s) && d0 < d1 < d2 < NUM && s.free[d0] && b !in s.calls && HeadAt(s, g, at) && !s.free[g]
    ensures HeadAt(Format(s, b, req, d0, d1, d2), g, at)
  {
  }

  lemma PostRings(s: Disk, b: nat, req: Order, d0: nat, d1: nat, d2: nat)
    requires Chains(s) && Rings(s) && d0 < d1 < d2 < NUM && s.free[d0] && b !in s.calls && s.lock == None
    requires Sized(Format(s, b, req, d0, d1, d2))
    ensures Rings(Format(s, b, req, d0, d1, d2))
  {
    hide Between, HeadAt, Formatted, Disjoint;
    WriteNext(s.ring, s.fetched, s.availIdx, s.availQ, d0);
    forall g, at | HeadAt(s, g, at) ensures HeadAt(Format(s, b, req, d0, d1, d2), g, at) {
      FreeNoHead(s, g, at);
      PostHead(s, b, req, d0, d1, d2, g, at);
    }
  }

  lemma PostInv(s: Disk, b: nat, req: Order, d0: nat, d1: nat, d2: nat)
    requires Inv(s) && d0 < d1 < d2 < NUM && s.free[d0] && s.free[d1] && s.free[d2] && b !in s.calls && s.lock == None
    ensures Inv(Format(s, b, req, d0, d1, d2))
  {
    var r := Format(s, b, req, d0, d1, d2);
    assert r.calls.Keys == s.calls.Keys + {b} && |r.free| == NUM;
    PostFormatted(s, b, req, d0, d1, d2, b);
    PostRings(s, b, req, d0, d1, d2);
    FreshHead(s, d0);
    hide Format, Formatted, Disjoint, Owned, Staged, Rings;
    forall c | c in r.calls ensures Formatted(r, c) { PostFormatted(s, b, req, d0, d1, d2, c); }
    forall c, e | c in r.calls && e in r.calls ensures Disjoint(r, c, e) { PostDisjoint(s, b, req, d0, d1, d2, c, e); }
    forall d | 0 <= d < |r.free| && !r.free[d] ensures Owned(r, d) { PostOwned(s, b, req, d0, d1, d2, d); }
    forall c | c in r.calls ensures Staged(r, c) { PostStaged(s, b, req, d0, d1, d2, c); }
  }

  // Finishing one

  lemma FinishChain(s: Disk, b: nat)
    requires Sized(s) && b in s.calls && Formatted(s, b)
    ensures var c := s.calls[b]; ChainFrom(s.desc, c.d0, NUM) == [c.d0, c.d1, c.d2]
  {
    var c := s.calls[b];
    assert ChainFrom(s.desc, c.d2, NUM - 2) == [c.d2];
    assert ChainFrom(s.desc, c.d1, NUM - 1) == [c.d1, c.d2];
  }

  /** The state after Finish, with the chain spelled out. */
  ghost predicate Finished(s: Disk, r: Disk, b: nat)
    requires Sized(s) && b in s.calls
  {
    var c := s.calls[b];
    && Sized(r) && r.calls == s.calls - {b} && r.ops == s.ops && c.d0 < NUM
    && r.info == s.info[c.d0 := s.info[c.d0].(b := None)]
    && (forall d :: 0 <= d < NUM ==> r.free[d] == (s.free[d] || Mine(c, d)) && (!Mine(c, d) ==> r.desc[d] == s.desc[d]))
    && r.(info := s.info, calls := s.calls, free := s.free, desc := s.desc) == s
  }

  lemma FinishDo(s: Disk, b: nat)
    requires Sized(s) && b in s.calls && Formatted(s, b)
    ensures Finished(s, Do(s, Finish(b)), b)
  {
    FinishChain(s, b);
    hide ChainFrom;
  }

  lemma FinishFormatted(s: Disk, r: Disk, b: nat, c: nat)
    requires Sized(s) && b in s.calls && c in s.calls && b != c && Formatted(s, b) && Formatted(s, c)
    requires Disjoint(s, b, c) && Finished(s, r, b)
    ensures c in r.calls && r.calls[c].d0 < NUM && s.calls[c].d0 < NUM && Formatted(r, c)
    ensures (Staged(s, c) ==> Staged(r, c))
  {
    var x := s.calls[c];
    assert Mine(x, x.d0) && Mine(x, x.d1) && Mine(x, x.d2);
  }

  lemma FinishOwned(s: Disk, r: Disk, b: nat, d: nat)
    requires Sized(s) && b in s.calls && Finished(s, r, b) && d < NUM && !r.free[d] && AllOwned(s)
    ensures Owned(r, d)
  {
    assert Owned(s, d);
    var c :| c in s.calls && Mine(s.calls[c], d);
    assert c in r.calls;
  }

  lemma FinishRings(s: Disk, r: Disk, b: nat)
    requires Chains(s) && AllStaged(s) && Rings(s) && b in s.calls && !s.calls[b].disk && s.lock == None
    requires Finished(s, r, b)
    ensures Rings(r)
  {
    hide Between, Disjoint, Formatted;
    assert Staged(s, b);
    Belongs(s, b);
    forall g, at | HeadAt(s, g, at) && at != Reaped ensures HeadAt(r, g, at) {
    }
  }

  lemma FinishInv(s: Disk, b: nat)
    requires Inv(s) && b in s.calls && !s.calls[b].disk && s.lock == None
    ensures Inv(Do(s, Finish(b)))
  {
    hide Do, Disjoint, Owned, Staged, Rings, Finished, Formatted;
    assert Formatted(s, b);
    FinishDo(s, b);
    FinishRings(s, Do(s, Finish(b)), b);
    FinishParts(s, Do(s, Finish(b)), b);
  }

  lemma FinishedCalls(s: Disk, r: Disk, b: nat)
    requires Sized(s) && b in s.calls && Finished(s, r, b)
    ensures r.calls == s.calls - {b} && Sized(r)
    ensures forall c :: c in r.calls <==> c in s.calls && c != b
  {
  }

  lemma FinishParts(s: Disk, r: Disk, b: nat)
    requires Chains(s) && AllOwned(s) && AllStaged(s) && b in s.calls && Finished(s, r, b)
    ensures Chains(r) && AllOwned(r) && AllStaged(r)
  {
    hide Disjoint, Owned, Staged, Finished, Formatted;
    FinishedCalls(s, r, b);
    forall c | c in r.calls ensures Formatted(r, c) && r.calls[c].d0 < NUM && Staged(r, c) {
      Belongs(s, c);
      assert Formatted(s, b) && Formatted(s, c) && Disjoint(s, b, c) && Staged(s, c);
      FinishFormatted(s, r, b, c);
    }
    forall c, e | c in r.calls && e in r.calls ensures Disjoint(r, c, e) { FinishDisjoint(s, r, b, c, e); }
    forall d | 0 <= d < |r.free| && !r.free[d] ensures Owned(r, d) { FinishOwned(s, r, b, d); }
  }

  lemma FinishDisjoint(s: Disk, r: Disk, b: nat, c: nat, e: nat)
    requires Chains(s) && b in s.calls && Finished(s, r, b) && c in r.calls && e in r.calls
    ensures Disjoint(r, c, e)
  {
    assert Disjoint(s, c, e);
  }

  // Runs

  lemma StepInv(s: Disk, step: Step)
    requires Inv(s) && Enabled(s, step)
    ensures Inv(Do(s, step))
  {
    hide Inv, Moved, Transfer, ChainFrom;
    match step {
      case Post(b, req, idx) =>
        InvSized(s);
        assert idx[0] < idx[1] < idx[2];
        PostInv(s, b, req, idx[0], idx[1], idx[2]);
      case Finish(b) => FinishInv(s, b);
      case _ => MoveInv(s, step);
    }
  }

  lemma InvSized(s: Disk)
    requires Inv(s)
    ensures Sized(s)
  {
  }

  ghost predicate Behaviour(states: seq<Disk>, steps: seq<Step>) {
    && |states| == |steps| + 1
    && (forall i :: 0 <= i < |states| ==> Sized(states[i]))
    && forall i :: 0 <= i < |steps| ==> Enabled(states[i], steps[i]) && states[i + 1] == Do(states[i], steps[i])
  }

  lemma {:induction false} BehaviourInv(states: seq<Disk>, steps: seq<Step>, k: nat)
    requires Behaviour(states, steps) && Inv(states[0]) && k < |states|
    ensures Inv(states[k])
  {
    hide Inv, Do, Enabled, Sized;
    if k > 0 {
      BehaviourInv(states, steps, k - 1);
      StepInv(states[k - 1], steps[k - 1]);
    }
  }

  // What the protocol promises

  /** Requests in flight have disjoint chains of three descriptors, the others are free, and there
      are at most two. */
  ghost predicate InFlight(s: Disk)
    requires Sized(s)
  {
    && (forall b, c, d :: b in s.calls && c in s.calls && b != c && Mine(s.calls[b], d) ==> !Mine(s.calls[c], d))
    && (forall d :: 0 <= d < NUM ==> (!s.free[d] <==> Owned(s, d)))
    && (forall a, b, c :: a in s.calls && b in s.calls && c in s.calls ==> a == b || b == c || a == c)
  }

  /** Each unread used entry names a buffer that still waits for it, with the status written, and
      what the device moved is what the call asked for: the interrupt handler cannot panic. */
  ghost predicate UsedRight(s: Disk)
    requires Sized(s)
  {
    forall k :: 0 <= k < (s.usedIdx - s.seen) % WRAP ==> CompletedRight(s, k)
  }

  /** The same of the kth unread entry. */
  ghost predicate CompletedRight(s: Disk, k: nat)
    requires Sized(s)
  {
    var id := s.used[(s.seen + k) % NUM];
    && id < NUM && s.info[id].ok && s.info[id].b.Some? && s.info[id].b.value in s.calls
    && var b := s.info[id].b.value;
       s.calls[b].d0 == id && s.calls[b].disk && b in s.moved && s.moved[b] == s.calls[b].req
  }

  /** The device and the interrupt handler are at most two entries behind, in 16-bit arithmetic. */
  ghost predicate NotOverrun(s: Disk) {
    (s.availIdx - s.fetched) % WRAP <= 2 && (s.usedIdx - s.seen) % WRAP <= 2
  }

  lemma InFlightHolds(s: Disk)
    requires Inv(s)
    ensures InFlight(s)
  {
    hide AllStaged, Rings;
    forall b, c, d | b in s.calls && c in s.calls && b != c && Mine(s.calls[b], d) ensures !Mine(s.calls[c], d) {
      assert Disjoint(s, b, c);
    }
    forall d | 0 <= d < NUM && Owned(s, d) ensures !s.free[d] {
      var b :| b in s.calls && Mine(s.calls[b], d);
      assert Formatted(s, b);
    }
    forall a, b, c | a in s.calls && b in s.calls && c in s.calls
      ensures a == b || b == c || a == c
    {
      NoThree(s, a, b, c);
    }
  }

  lemma UsedRightHolds(s: Disk)
    requires Inv(s)
    ensures UsedRight(s)
  {
    var q := s.usedQ;
    assert (s.usedIdx - s.seen) % WRAP == |q| by { assert s.usedIdx == (s.seen + |q|) % WRAP; }
    forall k | 0 <= k < |q| ensures CompletedRight(s, k) {
      assert s.used[(s.seen + k) % NUM] == q[k] && q[k] in q;
      assert HeadAt(s, q[k], Used);
      assert Staged(s, s.info[q[k]].b.value);
    }
  }

  lemma QueueBound(s: Disk, q: seq<nat>, at: Stage, ring: seq<nat>, from: nat, to: nat)
    requires Chains(s) && Between(ring, from, to, q) && (forall g :: g in q ==> HeadAt(s, g, at))
    ensures (to - from) % WRAP <= 2
  {
    hide Formatted, Disjoint;
    forall k | 0 <= k < |q| ensures Head(s, q[k]) { assert q[k] in q; }
    AtMostTwo(s, q);
    assert (to - from) % WRAP == |q| by { assert to == (from + |q|) % WRAP; }
  }

  lemma NotOverrunHolds(s: Disk)
    requires Inv(s)
    ensures NotOverrun(s)
  {
    hide Formatted, Disjoint, Between, HeadAt;
    QueueBound(s, s.availQ, Avail, s.ring, s.fetched, s.availIdx);
    QueueBound(s, s.usedQ, Used, s.used, s.seen, s.usedIdx);
  }

  /** What free_chain demands of the chain it is given, in every call. */
  lemma CallChain(s: Disk, b: nat)
    requires Sized(s) && b in s.calls && Formatted(s, b)
    ensures var c := s.calls[b];
            Chain(s.desc, c.d0, [c.d0, c.d1, c.d2]) && !s.free[c.d0] && !s.free[c.d1] && !s.free[c.d2]
  {
  }

  /** A call that finishes got what it asked for. */
  lemma FinishedRight(s: Disk, b: nat)
    requires Inv(s) && b in s.calls && Enabled(s, Finish(b))
    ensures b in s.moved && s.moved[b] == s.calls[b].req
  {
    assert Staged(s, b);
  }

  /** In every state of every run. */
  lemma ProtocolSafe(states: seq<Disk>, steps: seq<Step>, k: nat)
    requires Behaviour(states, steps) && states[0] == Init() && k < |states|
    ensures InFlight(states[k]) && UsedRight(states[k]) && NotOverrun(states[k])
  {
    hide Inv, InFlight, UsedRight, NotOverrun, Do, Enabled;
    InitInv();
    BehaviourInv(states, steps, k);
    InFlightHolds(states[k]);
    UsedRightHolds(states[k]);
    NotOverrunHolds(states[k]);
  }
}
