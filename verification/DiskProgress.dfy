/** That requests to the disk get somewhere (kernel/virtio_disk.c): each step moves one of them on, and
    while there is one in flight there is a step to take. */
module DiskProgress {
  import opened Basics
  import opened Descriptors
  import opened Virtqueue

  /** The stage after another. */
  function After(at: Stage): (r: Stage) {
    match at
    case Posted => Avail
    case Avail => Serving
    case Serving => Served
    case Served => Placed
    case Placed => Used
    case Used => Reaped
    case Reaped => Reaped
  }

  /** Call `b`, and no other, has moved on by one stage, or has ended after the last. */
  ghost predicate MovesOn(s: Disk, r: Disk, b: nat) {
    && b in s.calls
    && (if s.calls[b].at == Reaped then r.calls == s.calls - {b}
        else r.calls == s.calls[b := s.calls[b].(at := After(s.calls[b].at), disk := s.calls[b].at != Used)])
  }

  /** The descriptor chain that a step is about, and the stage of its request before. */
  ghost function HeadOf(s: Disk, step: Step): (h: nat)
    requires Sized(s)
  {
    match step
    case Bump(_) => s.ring[s.availIdx % NUM]
    case Fetch => s.ring[s.fetched % NUM]
    case Serve(h) => h
    case Place(h) => h
    case Publish => s.used[s.usedIdx % NUM]
    case Intr => s.used[s.seen % NUM]
    case Finish(b) => if b in s.calls then s.calls[b].d0 else 0
    case Post(_, _, _) => 0
  }

  function Before(step: Step): (at: Stage) {
    match step
    case Bump(_) => Posted
    case Fetch => Avail
    case Serve(_) => Serving
    case Place(_) => Served
    case Publish => Placed
    case Intr => Used
    case _ => Reaped
  }

  /** A request is accepted as it was made. */
  lemma Accepts(s: Disk, b: nat, req: Order, idx: seq<nat>)
    requires Inv(s) && Enabled(s, Post(b, req, idx))
    ensures var r := Do(s, Post(b, req, idx));
            && r.calls.Keys == s.calls.Keys + {b} && (forall c :: c in s.calls ==> r.calls[c] == s.calls[c])
            && r.calls[b].req == req && r.calls[b].disk && r.calls[b].at == Posted
  {
    hide Inv;
    InvSized(s);
    assert idx[0] < idx[1] < idx[2];
  }

  lemma TurnHead(s: Disk, step: Step)
    requires Inv(s) && Enabled(s, step) && !step.Post?
    ensures HeadAt(s, HeadOf(s, step), Before(step)) && (step.Finish? ==> s.info[HeadOf(s, step)].b == Some(step.b))
  {
    hide Between;
    match step {
      case Bump(b) => assert Staged(s, b) && Formatted(s, b);
      case Fetch => FirstUnread(s.ring, s.fetched, s.availIdx, s.availQ);
      case Intr => FirstUnread(s.used, s.seen, s.usedIdx, s.usedQ);
      case Finish(b) => assert Staged(s, b) && Formatted(s, b);
      case _ =>
    }
  }

  lemma FirstUnread(ring: seq<nat>, from: nat, to: nat, q: seq<nat>)
    requires Between(ring, from, to, q) && from != to && from < WRAP
    ensures q != [] && ring[from % NUM] == q[0] && q[0] in q
  {
    Pop(ring, from, to, q);
  }

  lemma AtStage(s: Disk, h: nat, at: Stage)
    requires Inv(s) && HeadAt(s, h, at)
    ensures s.calls[s.info[h].b.value].disk == (at != Reaped)
  {
    var b := s.info[h].b.value;
    assert Formatted(s, b) && Staged(s, b);
  }

  /** Every other step moves exactly one request on. */
  lemma StepMoves(s: Disk, step: Step)
    requires Inv(s) && Enabled(s, step) && !step.Post?
    ensures HeadAt(s, HeadOf(s, step), Before(step))
    ensures MovesOn(s, Do(s, step), s.info[HeadOf(s, step)].b.value)
  {
    hide Inv, ChainFrom;
    InvSized(s);
    TurnHead(s, step);
    AtStage(s, HeadOf(s, step), Before(step));
  }

  lemma WhereIs(s: Disk, b: nat)
    requires Inv(s) && b in s.calls
    ensures Sized(s) && s.calls[b].d0 < NUM && Staged(s, b)
    ensures s.calls[b].at == Avail ==> s.fetched != s.availIdx
    ensures s.calls[b].at == Used ==> s.seen != s.usedIdx
  {
    assert Formatted(s, b) && Staged(s, b);
    hide Formatted;
    NotEmpty(s.ring, s.fetched, s.availIdx, s.availQ);
    NotEmpty(s.used, s.seen, s.usedIdx, s.usedQ);
  }

  lemma NotEmpty(ring: seq<nat>, from: nat, to: nat, q: seq<nat>)
    requires Between(ring, from, to, q) && from < WRAP
    ensures q != [] ==> from != to
  {
    if q != [] && from + |q| >= WRAP { Shifted(WRAP, from + |q| - WRAP, 1); }
  }

  /** While a request is in flight some step other than a new request can be taken. */
  lemma NoStall(s: Disk, b: nat) returns (step: Step)
    requires Inv(s) && b in s.calls
    ensures Enabled(s, step) && !step.Post?
  {
    hide Inv;
    if s.lock.Some? {
      return Bump(s.lock.value);
    }
    var c := s.calls[b];
    WhereIs(s, b);
    match c.at {
      case Posted => return Bump(b);
      case Avail => return Fetch;
      case Serving => return Serve(c.d0);
      case Served => return if s.placed == None then Place(c.d0) else Publish;
      case Placed => return Publish;
      case Used => return Intr;
      case Reaped => return Finish(b);
    }
  }
}
