/** Descriptor allocation of the virtio disk driver (kernel/virtio_disk.c). */
module Descriptors {
  const NUM := 8

  /** What a descriptor points at: nothing, a request header, a buffer's data, a status byte. */
  datatype Addr = Null | Header(head: nat) | Data(buf: nat) | Status(head: nat)

  datatype Desc = Desc(addr: Addr, len: nat, next_: bool, write: bool, next: nat)

  function Cleared(): Desc { Desc(Null, 0, false, false, 0) }

  /** The lowest free descriptor, or NUM. */
  function First(free: seq<bool>): (i: nat)
    ensures i <= |free| && (i < |free| ==> free[i]) && forall j :: 0 <= j < i ==> !free[j]
  {
    if free == [] || free[0] then 0 else 1 + First(free[1..])
  }

  function FreeCount(free: seq<bool>): (n: nat) {
    if free == [] then 0 else (if free[0] then 1 else 0) + FreeCount(free[1..])
  }

  lemma {:induction false} CountTaken(free: seq<bool>, i: nat)
    requires i < |free| && free[i]
    ensures FreeCount(free[i := false]) == FreeCount(free) - 1
  {
    if i > 0 {
      CountTaken(free[1..], i - 1);
      assert free[i := false][1..] == free[1..][i - 1 := false];
    } else {
      assert free[i := false][1..] == free[1..];
    }
  }

  lemma {:induction false} CountNone(free: seq<bool>)
    ensures FreeCount(free) == 0 <==> First(free) == |free|
  {
    if free != [] && !free[0] { CountNone(free[1..]); }
  }

  /** A chain: its descriptors in order, each but the last leading to the next. */
  ghost predicate Chain(desc: seq<Desc>, i: nat, c: seq<nat>) {
    && c != [] && c[0] == i
    && (forall k :: 0 <= k < |c| ==> c[k] < |desc|)
    && (forall k, l :: 0 <= k < l < |c| ==> c[k] != c[l])
    && (forall k :: 0 <= k < |c| - 1 ==> desc[c[k]].next_ && desc[c[k]].next == c[k + 1])
    && !desc[c[|c| - 1]].next_
  }

  class Pool {
    var free: seq<bool>
    var desc: seq<Desc>

    ghost predicate Valid()
      reads this
    {
      |free| == NUM && |desc| == NUM
    }

    /** alloc_desc: the lowest free descriptor is taken; -1 if none is free. */
    method AllocDesc() returns (r: int)
      requires Valid()
      modifies this`free
      ensures Valid()
      ensures r == -1 ==> free == old(free) && First(free) == NUM
      ensures r != -1 ==> 0 <= r == First(old(free)) < NUM && free == old(free)[r := false]
    {
      var i := 0;
      while i < NUM
        invariant 0 <= i <= NUM && free == old(free) && forall j :: 0 <= j < i ==> !free[j]
      {
        if free[i] {
          free := free[i := false];
          return i;
        }
        i := i + 1;
      }
      return -1;
    }

    /** free_desc; its two panics are demands on the caller. */
    method FreeDesc(i: nat)
      requires Valid() && i < NUM && !free[i]
      modifies this
      ensures Valid() && free == old(free)[i := true] && desc == old(desc)[i := Cleared()]
    {
      desc := desc[i := Cleared()];
      free := free[i := true];
    }

    /** free_chain: frees and clears exactly the descriptors of the chain. */
    method FreeChain(head: nat, ghost c: seq<nat>)
      requires Valid() && Chain(desc, head, c) && forall k :: 0 <= k < |c| ==> !free[c[k]]
      modifies this
      ensures Valid()
      ensures forall d :: 0 <= d < NUM ==>
                free[d] == (old(free)[d] || d in c) && desc[d] == if d in c then Cleared() else old(desc)[d]
    {
      ChainAt(desc, head, c, 0);
      hide Chain;
      var i := head;
      ghost var n := 0;
      while true
        invariant Valid() && 0 <= n < |c| && i == c[n] < NUM
        invariant forall d :: 0 <= d < NUM ==>
                  free[d] == (old(free)[d] || d in c[..n]) && desc[d] == if d in c[..n] then Cleared() else old(desc)[d]
        decreases |c| - n
      {
        ChainAt(old(desc), head, c, n);
        var d := desc[i];
        FreeDesc(i);
        if !d.next_ {
          return;
        }
        i := d.next;
        n := n + 1;
      }
    }

    /** alloc3_desc: the three lowest free descriptors, or -1 and those taken put back; -1 exactly
        if fewer than three are free. */
    method Alloc3Desc() returns (r: int, idx: seq<nat>)
      requires Valid()
      modifies this
      ensures Valid() && (r == 0 || r == -1)
      ensures r == 0 <==> FreeCount(old(free)) >= 3
      ensures r == 0 ==> |idx| == 3 && Takes(old(free), free, idx) && desc == old(desc)
      ensures r == -1 ==> free == old(free)
    {
      idx := [];
      for i := 0 to 3
        invariant Valid() && |idx| == i && Takes(old(free), free, idx) && desc == old(desc)
        invariant FreeCount(old(free)) == FreeCount(free) + i
      {
        CountNone(free);
        ghost var f := free;
        var d := AllocDesc();
        if d < 0 {
          PutBack(idx, old(free));
          return -1, idx;
        }
        CountTaken(f, d);
        TakesMore(old(free), f, idx, d);
        idx := idx + [d];
      }
      return 0, idx;
    }

    /** The clean-up loop of alloc3_desc. */
    method PutBack(idx: seq<nat>, ghost f: seq<bool>)
      requires Valid() && Takes(f, free, idx)
      modifies this
      ensures Valid() && free == f
    {
      for j := 0 to |idx|
        invariant Valid() && |f| == NUM && forall d :: 0 <= d < NUM ==> free[d] == (f[d] && d !in idx[j..])
      {
        assert idx[j..] == [idx[j]] + idx[j + 1..];
        FreeDesc(idx[j]);
        TakesOnce(f, idx, j);
      }
    }
  }

  /** `idx` are the lowest free descriptors, in order, and free no more. */
  ghost predicate Takes(free: seq<bool>, after: seq<bool>, idx: seq<nat>) {
    && |after| == |free| && Picks(free, idx)
    && (forall d :: 0 <= d < |free| ==> after[d] == (free[d] && d !in idx))
  }

  ghost predicate Picks(free: seq<bool>, idx: seq<nat>) {
    && (forall k :: 0 <= k < |idx| ==> idx[k] < |free| && free[idx[k]])
    && (forall k, l :: 0 <= k < l < |idx| ==> idx[k] < idx[l])
    && (forall d, k :: 0 <= d < |free| && free[d] && d !in idx && 0 <= k < |idx| ==> idx[k] < d)
  }

  lemma TakesMore(free: seq<bool>, after: seq<bool>, idx: seq<nat>, d: nat)
    requires Takes(free, after, idx) && d == First(after) < |after|
    ensures Takes(free, after[d := false], idx + [d])
  {
    forall e, k | 0 <= e < |free| && free[e] && e !in idx + [d] && 0 <= k < |idx + [d]| ensures (idx + [d])[k] < e {
      assert e !in idx && after[e] && e != (idx + [d])[|idx|];
    }
  }

  lemma TakesOnce(free: seq<bool>, idx: seq<nat>, j: nat)
    requires Picks(free, idx) && j < |idx|
    ensures idx[j] !in idx[j + 1..]
  {
  }

  lemma ChainAt(desc: seq<Desc>, i: nat, c: seq<nat>, n: nat)
    requires Chain(desc, i, c) && n < |c|
    ensures c[0] == i && c[n] < |desc| && c[n] !in c[..n]
    ensures forall d :: d in c[..n + 1] <==> d in c[..n] || d == c[n]
    ensures if desc[c[n]].next_ then n + 1 < |c| && desc[c[n]].next == c[n + 1] < |desc| else c[..n + 1] == c
  {
    assert c[..n + 1] == c[..n] + [c[n]];
  }
}
