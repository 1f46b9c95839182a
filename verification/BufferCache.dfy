/** The buffer cache's list (kernel/bio.c): a circle through the head, in the order in which buffers
    last became unused. */
module BufferCache {
  import opened LogDisk

  /** The list head comes after the buffers. */
  const HEAD := NBUF

  // Circles

  ghost function Succ(ring: seq<nat>, i: nat): (j: nat)
    requires i < |ring|
  {
    if i + 1 < |ring| then ring[i + 1] else ring[0]
  }

  /** `next` leads around `ring`, and `prev` back. */
  ghost predicate Circle(next: seq<nat>, prev: seq<nat>, ring: seq<nat>) {
    && |next| == |prev| == NBUF + 1 && ring != [] && ring[0] == HEAD
    && (forall i :: 0 <= i < |ring| ==> ring[i] <= NBUF)
    && (forall i, j :: 0 <= i < j < |ring| ==> ring[i] != ring[j])
    && (forall i :: 0 <= i < |ring| ==> next[ring[i]] == Succ(ring, i) && prev[Succ(ring, i)] == ring[i])
  }

  /** Every buffer, and the head, is in the list. */
  ghost predicate Covers(ring: seq<nat>) {
    forall b :: 0 <= b <= NBUF ==> b in ring
  }

  ghost function Without(ring: seq<nat>, k: nat): (r: seq<nat>)
    requires k < |ring|
    ensures |r| == |ring| - 1 && forall i :: 0 <= i < |r| ==> r[i] == ring[if i < k then i else i + 1]
  {
    ring[..k] + ring[k + 1..]
  }

  ghost function Front(ring: seq<nat>, b: nat): (r: seq<nat>)
    requires ring != []
    ensures |r| == |ring| + 1
    ensures forall i :: 0 <= i < |r| ==> r[i] == if i == 0 then ring[0] else if i == 1 then b else ring[i - 1]
  {
    [ring[0], b] + ring[1..]
  }

  /** Unlinking takes a buffer out of the circle. */
  lemma Unlinked(next: seq<nat>, prev: seq<nat>, ring: seq<nat>, k: nat)
    requires Circle(next, prev, ring) && 0 < k < |ring|
    ensures var b := ring[k]; next[b] <= NBUF && prev[b] <= NBUF
    ensures var b := ring[k]; Circle(next[prev[b] := next[b]], prev[next[b] := prev[b]], Without(ring, k))
    ensures ring[k] !in Without(ring, k)
  {
    hide Without;
    var b, r := ring[k], Without(ring, k);
    WithoutOnce(ring, k);
    assert next[b] == Succ(ring, k) && prev[b] == ring[k - 1] by { assert Succ(ring, k - 1) == b; }
    forall i | 0 <= i < |r|
      ensures next[prev[b] := next[b]][r[i]] == Succ(r, i) && prev[next[b] := prev[b]][Succ(r, i)] == r[i]
    {
      UnlinkedAt(next, prev, ring, k, i);
    }
  }

  lemma WithoutOnce(ring: seq<nat>, k: nat)
    requires 0 < k < |ring| && forall i, j :: 0 <= i < j < |ring| ==> ring[i] != ring[j]
    ensures var r := Without(ring, k); r[0] == ring[0] && forall i, j :: 0 <= i < j < |r| ==> r[i] != r[j]
    ensures ring[k] !in Without(ring, k)
  {
    hide Without;
  }

  lemma UnlinkedAt(next: seq<nat>, prev: seq<nat>, ring: seq<nat>, k: nat, i: nat)
    requires Circle(next, prev, ring) && 0 < k < |ring| && i + 1 < |ring| && next[ring[k]] == Succ(ring, k)
    requires prev[ring[k]] == ring[k - 1]
    ensures var r, n := Without(ring, k), Succ(ring, k);
            && next[ring[k - 1] := n][r[i]] == Succ(r, i)
            && Succ(r, i) <= NBUF && prev[n := ring[k - 1]][Succ(r, i)] == r[i]
  {
    hide Without;
    var r := Without(ring, k);
    var i0 := if i < k then i else i + 1;
    assert r[i] == ring[i0] && next[ring[i0]] == Succ(ring, i0) && prev[Succ(ring, i0)] == ring[i0];
    if i == k - 1 {
      assert Succ(r, i) == Succ(ring, k);
    } else {
      assert Succ(r, i) == Succ(ring, i0) && Succ(ring, i0) != Succ(ring, k);
    }
  }

  /** Linking puts a buffer after the head. */
  lemma Linked(next: seq<nat>, prev: seq<nat>, ring: seq<nat>, b: nat)
    requires Circle(next, prev, ring) && b < NBUF && b !in ring
    ensures var n := next[HEAD];
            n <= NBUF && Circle(next[b := n][HEAD := b], prev[b := HEAD][n := b], Front(ring, b))
  {
    hide Front;
    var r, n := Front(ring, b), next[HEAD];
    assert n == Succ(ring, 0);
    var next1, prev1 := next[b := n][HEAD := b], prev[b := HEAD][n := b];
    forall i | 0 <= i < |ring| ensures ring[i] != b { assert ring[i] in ring; }
    forall i | 0 <= i < |r| ensures next1[r[i]] == Succ(r, i) && prev1[Succ(r, i)] == r[i] {
      if i > 1 {
        assert r[i] == ring[i - 1] && next[ring[i - 1]] == Succ(ring, i - 1) && prev[Succ(ring, i - 1)] == ring[i - 1];
        assert Succ(r, i) == Succ(ring, i - 1);
      }
    }
  }

  // The order of use

  ghost predicate Latest(stamp: seq<nat>, ring: seq<nat>) {
    && |stamp| == NBUF && (forall i :: 1 <= i < |ring| ==> ring[i] < NBUF)
    && forall i, j :: 1 <= i < j < |ring| ==> stamp[ring[i]] > stamp[ring[j]]
  }

  lemma MovedFront(stamp: seq<nat>, clock: nat, ring: seq<nat>, k: nat)
    requires Latest(stamp, ring) && 1 <= k < |ring| && forall b :: 0 <= b < NBUF ==> stamp[b] < clock
    requires forall i, j :: 0 <= i < j < |ring| ==> ring[i] != ring[j]
    ensures |stamp| == NBUF && ring[k] < NBUF && Latest(stamp[ring[k] := clock], Front(Without(ring, k), ring[k]))
  {
    hide Front, Without;
    var r := Front(Without(ring, k), ring[k]);
    forall i, j | 1 <= i < j < |r| ensures stamp[ring[k] := clock][r[i]] > stamp[ring[k] := clock][r[j]] {
    }
  }

  datatype Buf = Buf(dev: nat, blockno: nat, valid: bool, refcnt: nat)

  class Cache {
    var buf: seq<Buf>
    var next: seq<nat>
    var prev: seq<nat>
    /** The list from the head on, and for each buffer when brelse last made it unused. */
    ghost var ring: seq<nat>
    ghost var stamp: seq<nat>
    ghost var clock: nat

    ghost predicate Valid()
      reads this
    {
      && |buf| == NBUF && Circle(next, prev, ring) && |ring| == NBUF + 1 && Covers(ring)
      && Latest(stamp, ring) && (forall b :: 0 <= b < NBUF ==> stamp[b] < clock)
      && Unique(buf)
    }

    /** binit: all buffers in the list, the last one first, none in use. */
    method Binit()
      modifies this
      ensures Valid() && forall b :: 0 <= b < NBUF ==> buf[b] == Buf(0, 0, false, 0)
    {
      hide Circle, Covers, Latest, Unique, Descends, Front;
      buf := seq(NBUF, _ => Buf(0, 0, false, 0));
      next := seq(NBUF + 1, _ => HEAD);
      prev := seq(NBUF + 1, _ => HEAD);
      ring, stamp, clock := [HEAD], seq(NBUF, i => i), NBUF;
      HeadAlone(next, prev);
      for b := 0 to NBUF
        invariant Circle(next, prev, ring) && Descends(ring, b)
        invariant stamp == seq(NBUF, i => i) && clock == NBUF && buf == seq(NBUF, _ => Buf(0, 0, false, 0))
      {
        DescendsMore(ring, b);
        Linked(next, prev, ring, b);
        HeadApart(next, prev, ring, b);
        next := next[b := next[HEAD]];
        prev := prev[b := HEAD];
        prev := prev[next[HEAD] := b];
        next := next[HEAD := b];
        ring := Front(ring, b);
      }
      AllLinked(ring, stamp, buf);
    }

    /** The two scans of bget, from either end of the list: the buffer that has the block; else the
        unused buffer that was released longest ago, which it takes over; HEAD if all are in use. */
    method Bget(dev: nat, blockno: nat) returns (b: nat)
      requires Valid() && dev != 0
      modifies this`buf
      ensures Valid() && b <= NBUF
      ensures b == HEAD <==> NotCached(old(buf), dev, blockno) && forall c :: 0 <= c < NBUF ==> old(buf)[c].refcnt > 0
      ensures b == HEAD ==> buf == old(buf)
      ensures b != HEAD && !NotCached(old(buf), dev, blockno) ==>
                && old(buf)[b].dev == dev && old(buf)[b].blockno == blockno
                && buf == old(buf)[b := old(buf)[b].(refcnt := old(buf)[b].refcnt + 1)]
      ensures b != HEAD && NotCached(old(buf), dev, blockno) ==>
                && old(buf)[b].refcnt == 0
                && (forall c :: 0 <= c < NBUF && c != b && old(buf)[c].refcnt == 0 ==> stamp[b] < stamp[c])
                && buf == old(buf)[b := Buf(dev, blockno, false, 1)]
    {
      hide Circle, Covers, Latest;
      b := Lookup(dev, blockno);
      if b != HEAD {
        buf := buf[b := buf[b].(refcnt := buf[b].refcnt + 1)];
        return b;
      }
      b := Oldest();
      if b != HEAD {
        buf := buf[b := Buf(dev, blockno, false, 1)];
      }
    }

    /** bget's first scan, from the most recently used buffer on. */
    method Lookup(dev: nat, blockno: nat) returns (b: nat)
      requires Valid()
      ensures b <= NBUF && (b == HEAD <==> NotCached(buf, dev, blockno))
      ensures b != HEAD ==> buf[b].dev == dev && buf[b].blockno == blockno
    {
      b := next[HEAD];
      ghost var i := 1;
      Places(next, prev, ring, 0);
      hide Circle, Covers, Latest, Unique;
      while b != HEAD
        invariant 1 <= i <= |ring| && b <= NBUF && b == (if i < |ring| then ring[i] else HEAD)
        invariant forall j :: 1 <= j < i ==>
                  ring[j] < NBUF && (buf[ring[j]].dev != dev || buf[ring[j]].blockno != blockno)
        decreases |ring| - i
      {
        Places(next, prev, ring, i);
        if buf[b].dev == dev && buf[b].blockno == blockno {
          return b;
        }
        b := next[b];
        i := i + 1;
      }
      Ends(next, prev, ring, i);
      forall c | 0 <= c < NBUF ensures buf[c].dev != dev || buf[c].blockno != blockno { var j := Place(ring, c); }
    }

    /** bget's second scan, from the least recently used buffer on. */
    method Oldest() returns (b: nat)
      requires Valid()
      ensures b <= NBUF && (b == HEAD <==> forall c :: 0 <= c < NBUF ==> buf[c].refcnt > 0)
      ensures b != HEAD ==>
                && buf[b].refcnt == 0
                && forall c :: 0 <= c < NBUF && c != b && buf[c].refcnt == 0 ==> stamp[b] < stamp[c]
    {
      hide Circle, Covers, Latest, Unique, Passed, Succ;
      Back(next, prev, ring, 0);
      b := prev[HEAD];
      ghost var i := |ring| - 1;
      PassedNone(buf, ring);
      while b != HEAD
        invariant 0 <= i < |ring| && b == ring[i] && b <= NBUF && Passed(buf, ring, i)
        decreases i
      {
        Back(next, prev, ring, i);
        if buf[b].refcnt == 0 {
          PassedOlder(buf, ring, stamp, i);
          return b;
        }
        PassedMore(buf, ring, i);
        b := prev[b];
        i := i - 1;
      }
      Back(next, prev, ring, i);
      PassedAll(buf, ring);
    }

    /** brelse: one reference less; a buffer that becomes unused is the most recently used. */
    method Brelse(b: nat)
      requires Valid() && b < NBUF && buf[b].refcnt > 0
      modifies this
      ensures Valid() && buf == old(buf)[b := old(buf)[b].(refcnt := old(buf)[b].refcnt - 1)]
      ensures if buf[b].refcnt == 0 then stamp == old(stamp)[b := old(clock)] && clock == old(clock) + 1
              else stamp == old(stamp) && clock == old(clock) && ring == old(ring)
    {
      hide Circle, Covers, Latest, Front, Without;
      buf := buf[b := buf[b].(refcnt := buf[b].refcnt - 1)];
      if buf[b].refcnt == 0 {
        Ends(next, prev, ring, 0);
        ghost var k := Place(ring, b);
        Neighbours(next, prev, ring, k);
        Unlinked(next, prev, ring, k);
        MovedFront(stamp, clock, ring, k);
        Kept(ring, k);
        prev := prev[next[b] := prev[b]];
        next := next[prev[b] := next[b]];
        ghost var rest := Without(ring, k);
        Linked(next, prev, rest, b);
        HeadApart(next, prev, rest, b);
        next := next[b := next[HEAD]];
        prev := prev[b := HEAD];
        prev := prev[next[HEAD] := b];
        next := next[HEAD := b];
        ring, stamp, clock := Front(rest, b), stamp[b := clock], clock + 1;
      }
    }

    method Bpin(b: nat)
      requires Valid() && b < NBUF
      modifies this`buf
      ensures Valid() && buf == old(buf)[b := old(buf)[b].(refcnt := old(buf)[b].refcnt + 1)]
    {
      buf := buf[b := buf[b].(refcnt := buf[b].refcnt + 1)];
    }

    method Bunpin(b: nat)
      requires Valid() && b < NBUF && buf[b].refcnt > 0
      modifies this`buf
      ensures Valid() && buf == old(buf)[b := old(buf)[b].(refcnt := old(buf)[b].refcnt - 1)]
    {
      buf := buf[b := buf[b].(refcnt := buf[b].refcnt - 1)];
    }
  }

  /** The list while binit builds it: the buffers below `b`, the last one first. */
  ghost predicate Descends(ring: seq<nat>, b: nat) {
    |ring| == b + 1 && ring[0] == HEAD && forall i :: 1 <= i < |ring| ==> ring[i] == b - i
  }

  lemma HeadAlone(next: seq<nat>, prev: seq<nat>)
    requires next == prev == seq(NBUF + 1, _ => HEAD)
    ensures Circle(next, prev, [HEAD]) && Descends([HEAD], 0)
  {
  }

  lemma DescendsMore(ring: seq<nat>, b: nat)
    requires Descends(ring, b) && b < NBUF
    ensures b !in ring && Descends(Front(ring, b), b + 1)
  {
  }

  lemma AllLinked(ring: seq<nat>, stamp: seq<nat>, buf: seq<Buf>)
    requires Descends(ring, NBUF) && stamp == seq(NBUF, i => i) && buf == seq(NBUF, _ => Buf(0, 0, false, 0))
    ensures |ring| == NBUF + 1 && Covers(ring) && Latest(stamp, ring) && Unique(buf)
  {
    forall b | 0 <= b <= NBUF ensures b in ring { assert ring[if b == NBUF then 0 else NBUF - b] == b; }
  }

  ghost predicate NotCached(buf: seq<Buf>, dev: nat, blockno: nat) {
    forall c :: 0 <= c < |buf| ==> buf[c].dev != dev || buf[c].blockno != blockno
  }

  lemma Places(next: seq<nat>, prev: seq<nat>, ring: seq<nat>, i: nat)
    requires Circle(next, prev, ring) && i < |ring|
    ensures ring[i] <= NBUF && next[ring[i]] == Succ(ring, i) && prev[Succ(ring, i)] == ring[i] && Succ(ring, i) <= NBUF
    ensures i > 0 ==> ring[i] < NBUF
  {
  }

  /** Where `prev` leads from place `i`. */
  lemma Back(next: seq<nat>, prev: seq<nat>, ring: seq<nat>, i: nat)
    requires Circle(next, prev, ring) && i < |ring|
    ensures |prev| == NBUF + 1 && ring[0] == HEAD && (ring[i] == HEAD <==> i == 0) && ring[i] <= NBUF
    ensures prev[ring[i]] == (if i == 0 then ring[|ring| - 1] else ring[i - 1]) && prev[ring[i]] <= NBUF
  {
    if i > 0 { Places(next, prev, ring, i - 1); } else { Places(next, prev, ring, |ring| - 1); }
  }

  lemma Neighbours(next: seq<nat>, prev: seq<nat>, ring: seq<nat>, k: nat)
    requires Circle(next, prev, ring) && k < |ring| && ring[k] < NBUF
    ensures 0 < k && |next| == |prev| == NBUF + 1 && next[ring[k]] <= NBUF && next[ring[k]] != ring[k]
    ensures forall i, j :: 0 <= i < j < |ring| ==> ring[i] != ring[j]
  {
    Places(next, prev, ring, k);
  }

  lemma HeadApart(next: seq<nat>, prev: seq<nat>, ring: seq<nat>, b: nat)
    requires Circle(next, prev, ring) && b < NBUF && b !in ring
    ensures |next| == |prev| == NBUF + 1 && next[HEAD] <= NBUF && next[HEAD] != b
  {
    Places(next, prev, ring, 0);
    assert Succ(ring, 0) in ring;
  }

  lemma Kept(ring: seq<nat>, k: nat)
    requires 0 < k < |ring| && Covers(ring)
    ensures Covers(Front(Without(ring, k), ring[k]))
  {
    var w := Without(ring, k);
    var r := Front(w, ring[k]);
    forall b | 0 <= b <= NBUF ensures b in r {
      assert b in ring;
      var i :| 0 <= i < |ring| && ring[i] == b;
      if i == 0 {
        assert r[0] == b;
      } else if i == k {
        assert r[1] == b;
      } else {
        assert r[if i < k then i + 1 else i] == b;
      }
    }
  }

  /** The buffers after place `i` are in use. */
  ghost predicate Passed(buf: seq<Buf>, ring: seq<nat>, i: nat) {
    forall j :: i < j < |ring| ==> ring[j] < |buf| && buf[ring[j]].refcnt > 0
  }

  lemma PassedNone(buf: seq<Buf>, ring: seq<nat>)
    requires ring != []
    ensures Passed(buf, ring, |ring| - 1)
  {
  }

  lemma PassedMore(buf: seq<Buf>, ring: seq<nat>, i: nat)
    requires 0 < i < |ring| && Passed(buf, ring, i) && ring[i] < |buf| && buf[ring[i]].refcnt > 0
    ensures Passed(buf, ring, i - 1)
  {
  }

  lemma PassedOlder(buf: seq<Buf>, ring: seq<nat>, stamp: seq<nat>, i: nat)
    requires Latest(stamp, ring) && |buf| == NBUF && ring != [] && ring[0] == HEAD && Covers(ring)
    requires 0 < i < |ring| && Passed(buf, ring, i)
    ensures ring[i] < NBUF && |stamp| == NBUF
    ensures forall c :: 0 <= c < NBUF && c != ring[i] && buf[c].refcnt == 0 ==> stamp[ring[i]] < stamp[c]
  {
    forall c | 0 <= c < NBUF && c != ring[i] && buf[c].refcnt == 0
      ensures stamp[ring[i]] < stamp[c]
    {
      var j := Place(ring, c);
    }
  }

  lemma PassedAll(buf: seq<Buf>, ring: seq<nat>)
    requires |buf| == NBUF && ring != [] && ring[0] == HEAD && Covers(ring) && Passed(buf, ring, 0)
    ensures forall c :: 0 <= c < NBUF ==> buf[c].refcnt > 0
  {
    forall c | 0 <= c < NBUF ensures buf[c].refcnt > 0 { var j := Place(ring, c); }
  }

  /** Where in the list a buffer is. */
  ghost function Place(ring: seq<nat>, b: nat): (k: nat)
    requires b < NBUF && Covers(ring) && |ring| > 0 && ring[0] == HEAD
    ensures 0 < k < |ring| && ring[k] == b
  {
    assert b in ring;
    var k :| 0 <= k < |ring| && ring[k] == b;
    k
  }

  lemma Ends(next: seq<nat>, prev: seq<nat>, ring: seq<nat>, i: nat)
    requires Circle(next, prev, ring)
    ensures ring != [] && ring[0] == HEAD && (i < |ring| && ring[i] == HEAD ==> i == 0)
  {
  }

  /** A block of a real device has at most one buffer. */
  ghost predicate Unique(buf: seq<Buf>) {
    forall b, c :: 0 <= b < c < |buf| && buf[b].dev != 0 ==>
        buf[b].dev != buf[c].dev || buf[b].blockno != buf[c].blockno
  }
}
