/** malloc and free of user/umalloc.c. A pointer that malloc returns is one unit past the header of
    its block; zero is the null pointer. What sbrk answers is a parameter. */
module Heap {
  import opened HeapList

  /** The sizes of the blocks of the ring. */
  ghost predicate NoneFits(mem: Mem, ring: seq<nat>, n: nat) {
    forall i :: 0 <= i < |ring| ==> ring[i] in mem && mem[ring[i]].size < n
  }

  /** Nothing about the live blocks has changed, save for block `b`: headers and units. */
  ghost predicate OthersKept(mem: Mem, live: set<nat>, owner: map<nat, nat>, mem1: Mem, live1: set<nat>,
                             owner1: map<nat, nat>, b: nat) {
    && (forall c :: c in live && c != b ==> c in live1 && c in mem && c in mem1 && mem1[c] == mem[c])
    && (forall u :: u in owner && owner[u] in live && owner[u] != b ==> u in owner1 && owner1[u] == owner[u])
  }

  lemma KeptTwice(mem: Mem, live: set<nat>, owner: map<nat, nat>, mem1: Mem, live1: set<nat>, owner1: map<nat, nat>,
                  mem2: Mem, live2: set<nat>, owner2: map<nat, nat>, b: nat)
    requires OthersKept(mem, live, owner, mem1, live1, owner1, 0) && 0 !in live
    requires OthersKept(mem1, live1, owner1, mem2, live2, owner2, b)
    ensures OthersKept(mem, live, owner, mem2, live2, owner2, b)
  {
  }

  lemma KeptSame(mem: Mem, live: set<nat>, owner: map<nat, nat>)
    requires forall b :: b in live ==> b in mem
    ensures OthersKept(mem, live, owner, mem, live, owner, 0)
  {
  }

  class Heap {
    var mem: Mem
    var freep: nat
    /** The free blocks in address order, the live ones, the block each unit is in, and how far up
        sbrk has given out memory. */
    ghost var ring: seq<nat>
    ghost var live: set<nat>
    ghost var owner: map<nat, nat>
    ghost var brk: nat

    ghost predicate Valid()
      reads this
    {
      && BASE < brk
      && if freep == 0 then live == {} && owner == map[]
         else freep in ring && Good(mem, ring, live, owner, brk)
    }

    constructor (start: nat)
      requires start > BASE
      ensures Valid() && freep == 0 && brk == start
    {
      mem := map[];
      freep := 0;
      ring := [];
      live := {};
      owner := map[];
      brk := start;
    }

    /** The search loop of free: the free block that comes before `bp` in address order. */
    method FindSlot(bp: nat) returns (p: nat, ghost k: nat)
      requires Valid() && freep != 0 && bp > BASE && bp !in ring
      ensures k == Below(ring, bp) && p == ring[k]
    {
      k := Below(ring, bp);
      p := freep;
      ghost var i :| 0 <= i < |ring| && ring[i] == freep;
      while !(bp > p && bp < mem[p].ptr)
        invariant 0 <= i < |ring| && p == ring[i]
        decreases if i <= k then k - i else |ring| - i + k
      {
        NextPtr(mem, ring, i);
        SlotOnly(mem, ring, bp, i, k);
        if p >= mem[p].ptr && (bp > p || bp < mem[p].ptr) {
          return;
        }
        p := mem[p].ptr;
        i := if i + 1 < |ring| then i + 1 else 0;
      }
      NextPtr(mem, ring, i);
      SlotOnly(mem, ring, bp, i, k);
    }

    /** free of the live block with header `bp`: its units are free, joined to the free blocks that
        touch them, and no other live block is touched. */
    method Free(bp: nat)
      requires Valid() && freep != 0 && bp in live
      modifies this
      ensures Valid() && freep != 0 && brk == old(brk) && live == old(live) - {bp} && owner.Keys == old(owner).Keys
      ensures OthersKept(old(mem), old(live), old(owner), mem, live, owner, bp) && bp in old(mem)
      ensures forall u :: u in owner && old(owner)[u] !in live ==> owner[u] !in live
      ensures Room(mem, freep, old(mem)[bp].size)
      ensures old(ring) != [] && old(ring)[0] < bp && freep == old(ring)[Below(old(ring), bp)]
    {
      hide Good, Next, Below, Freed, Room;
      LiveBlock(mem, ring, live, owner, brk, bp);
      GoodRing(mem, ring, live, owner, brk);
      var p;
      ghost var k;
      p, k := FindSlot(bp);
      SlotFacts(mem, ring, live, owner, brk, bp, k);
      ghost var ring2, owner2 := FreeGood(mem, ring, live, owner, brk, bp, k);
      FreedLive(mem, ring, live, owner, brk, bp, k);
      FreeBody(p, bp);
      freep := p;
      ring, live, owner := ring2, live - {bp}, owner2;
    }

    /** What malloc does with a block that is large enough: all of it, or its tail. */
    method Take(prevp: nat, p: nat, nunits: nat, ghost i: nat) returns (a: nat)
      requires Valid() && freep != 0 && i < |ring| && ring[i] == prevp && p == Next(ring, i) && nunits > 0
      requires p in mem && mem[p].size >= nunits
      modifies this
      ensures Valid() && freep != 0 && brk == old(brk) && owner.Keys == old(owner).Keys
      ensures a !in old(live) && live == old(live) + {a} && a in mem && mem[a].size == nunits
      ensures a + nunits == p + old(mem)[p].size && freep == prevp
      ensures OthersKept(old(mem), old(live), old(owner), mem, live, owner, a)
    {
      hide Good, Cut, Carve;
      TakeFacts(mem, ring, live, owner, brk, i);
      a := p;
      if mem[p].size == nunits {
        ghost var mem1 := mem[prevp := mem[prevp].(ptr := mem[p].ptr)];
        Unlink(mem, mem1, ring, live, owner, brk, i);
        CutKeeps(ring, i);
        mem := mem[prevp := mem[prevp].(ptr := mem[p].ptr)];
        ring, live := Cut(ring, i), live + {p};
      } else {
        mem := mem[p := mem[p].(size := mem[p].size - nunits)];
        a := p + mem[p].size;
        mem := mem[a := if a in mem then mem[a].(size := nunits) else Header(0, nunits)];
        SplitTail(old(mem), mem, ring, live, owner, brk, i + 1, a, nunits);
        CarveLive(old(mem), ring, live, owner, brk, i + 1, a, nunits);
        live, owner := live + {a}, Carve(owner, a, nunits);
      }
      LiveHeaders(old(mem), old(ring), old(live), old(owner), old(brk));
      freep := prevp;
    }

    /** morecore: at least 4096 units from sbrk, if it gives them (`at` is where), freed at once. */
    method Morecore(nu: nat, ok: bool, at: nat) returns (p: nat, ghost f: nat)
      requires Valid() && freep != 0 && nu > 0 && (ok ==> at >= brk)
      modifies this
      ensures Valid() && freep != 0 && live == old(live)
      ensures OthersKept(old(mem), old(live), old(owner), mem, live, owner, 0)
      ensures !ok ==> p == 0 && mem == old(mem) && freep == old(freep)
      ensures !ok ==> ring == old(ring) && owner == old(owner) && brk == old(brk)
      ensures ok ==> p == freep && Pending(mem, freep, nu, true) && Obtained(old(owner), owner, brk, at, nu)
      ensures ok ==> brk == at + if nu < 4096 then 4096 else nu
      ensures ok ==> f < |ring| && ring[f] == freep && freep in mem && mem[freep].ptr == Next(ring, f)
    {
      hide Good, Extend, Room, Pending, Next;
      var n := nu;
      if n < 4096 {
        n := 4096;
      }
      if !ok {
        LiveHeaders(mem, ring, live, owner, brk);
        return 0, 0;
      }
      mem := mem[at := if at in mem then mem[at].(size := n) else Header(0, n)];
      Grow(old(mem), mem, ring, live, owner, brk, at, n);
      LiveHeaders(old(mem), ring, live, owner, brk);
      OwnersBelow(old(mem), ring, live, owner, brk);
      live, owner, brk := live + {at}, Extend(owner, at, n), at + n;
      Free(at);
      RoomLess(mem, freep, n, nu);
      PendingFirst(mem, freep, nu);
      f :| 0 <= f < |ring| && ring[f] == freep;
      TakeFacts(mem, ring, live, owner, brk, f);
      return freep, f;
    }

    /** malloc: a live block of its own for the caller, from the free list if any block there is large
        enough, else from one call of morecore; zero only if both fail. */
    method Malloc(nbytes: nat, ok: bool, at: nat) returns (r: nat, ghost calls: nat)
      requires Valid() && nbytes < 0x1_0000_0000 && NUnits(nbytes) * HEADER < 0x8000_0000 && (ok ==> at >= brk)
      modifies this
      ensures Valid() && freep != 0 && calls <= 1
      ensures calls == 0 ==> owner.Keys == old(owner).Keys && brk == old(brk)
      ensures calls == 0 && old(freep) != 0 ==> r != 0 && old(FirstFit(mem, ring, freep, NUnits(nbytes), r - 1))
      ensures calls == 1 && old(freep) != 0 ==> old(NoneFits(mem, ring, NUnits(nbytes)))
      ensures calls == 1 && ok ==> Obtained(old(owner), owner, brk, at, NUnits(nbytes))
      ensures r == 0 ==> calls == 1 && !ok && brk == old(brk)
      ensures r == 0 ==> live == old(live) && owner == old(owner) && NoneFits(mem, ring, NUnits(nbytes))
      ensures r == 0 ==> OthersKept(old(mem), old(live), old(owner), mem, live, owner, 0)
      ensures r != 0 ==> r - 1 !in old(live) && live == old(live) + {r - 1}
      ensures r != 0 ==> r - 1 in mem && mem[r - 1].size == NUnits(nbytes)
      ensures r != 0 ==> OthersKept(old(mem), old(live), old(owner), mem, live, owner, r - 1)
    {
      hide Good, NoneFits, OthersKept;
      if freep == 0 {
        Start();
      } else {
        LiveHeaders(mem, ring, live, owner, brk);
        KeptSame(mem, live, owner);
      }
      ghost var mem1, live1, owner1 := mem, live, owner;
      r, calls := Search(NUnits(nbytes), ok, at);
      if r != 0 { KeptTwice(old(mem), old(live), old(owner), mem1, live1, owner1, mem, live, owner, r - 1); }
    }

    /** malloc's loop. */
    method Search(nunits: nat, ok: bool, at: nat) returns (r: nat, ghost calls: nat)
      requires Valid() && freep != 0 && nunits > 0 && (ok ==> at >= brk)
      modifies this
      ensures Valid() && freep != 0 && calls <= 1
      ensures calls == 0 ==> owner.Keys == old(owner).Keys && brk == old(brk)
      ensures calls == 0 ==> r != 0 && old(FirstFit(mem, ring, freep, nunits, r - 1))
      ensures calls == 1 ==> old(NoneFits(mem, ring, nunits))
      ensures calls == 1 && ok ==> Obtained(old(owner), owner, brk, at, nunits)
      ensures r == 0 ==> calls == 1 && !ok && brk == old(brk)
      ensures r == 0 ==> live == old(live) && owner == old(owner) && mem == old(mem) && ring == old(ring)
      ensures r != 0 ==> r - 1 !in old(live) && live == old(live) + {r - 1} && r - 1 in mem && mem[r - 1].size == nunits
      ensures r != 0 ==> OthersKept(old(mem), old(live), old(owner), mem, live, owner, r - 1)
    {
      hide Good, Room, Pending, NoneFits, Seen, Next, Ahead, OthersKept;
      calls := 0;
      var prevp := freep;
      LiveHeaders(mem, ring, live, owner, brk);
      KeptSame(mem, live, owner);
      ghost var f :| 0 <= f < |ring| && ring[f] == freep;
      ghost var i := f;
      TakeFacts(mem, ring, live, owner, brk, f);
      var p := mem[prevp].ptr;
      SeenNone(mem, ring, f, nunits);
      while true
        invariant Valid() && freep != 0 && 0 <= i < |ring| && ring[i] == prevp && p == Next(ring, i)
        invariant 0 <= f < |ring| && ring[f] == freep
        invariant calls == 0 || calls == 1
        invariant calls == 0 ==> freep == old(freep) && mem == old(mem) && ring == old(ring)
        invariant calls == 0 ==> owner == old(owner) && brk == old(brk) && Seen(mem, ring, f, i, nunits)
        invariant live == old(live) && OthersKept(old(mem), old(live), old(owner), mem, live, owner, 0)
        invariant calls == 1 ==> Pending(mem, freep, nunits, i == f) && old(NoneFits(mem, ring, nunits))
        invariant calls == 1 ==> ok && Obtained(old(owner), owner, brk, at, nunits)
        decreases 1 - calls, Ahead(|ring|, f, i)
      {
        TakeFacts(mem, ring, live, owner, brk, i);
        TakeFacts(mem, ring, live, owner, brk, f);
        if mem[p].size >= nunits {
          ghost var mem1, live1, owner1 := mem, live, owner;
          assert calls == 0 ==> Fitting(mem, ring, freep, nunits, p + mem[p].size - nunits, f, i);
          var a := Take(prevp, p, nunits, i);
          KeptTwice(old(mem), old(live), old(owner), mem1, live1, owner1, mem, live, owner, a);
          assert calls == 0 ==> old(Fitting(mem, ring, freep, nunits, a, f, i));
          return a + 1, calls;
        }
        Around(mem, ring, live, owner, brk, f, i);
        if p == freep {
          Closed(mem, freep, nunits, calls, ring, f, i);
          SeenAll(mem, ring, f, i, nunits);
          p, f := Morecore(nunits, ok, at);
          calls := 1;
          if p == 0 {
            return 0, calls;
          }
          i := f;
        } else {
          SeenMore(mem, ring, f, i, nunits);
          PendingMore(mem, freep, nunits, i == f, p);
          i := if i + 1 < |ring| then i + 1 else 0;
          TakeFacts(mem, ring, live, owner, brk, i);
        }
        prevp := p;
        p := mem[p].ptr;
      }
    }

    /** The first call makes a ring of `base` alone. */
    method Start()
      requires Valid() && freep == 0
      modifies this
      ensures Valid() && freep == BASE && live == old(live) && owner == old(owner) && brk == old(brk)
      ensures OthersKept(old(mem), old(live), old(owner), mem, live, owner, 0)
    {
      mem := mem[BASE := Header(BASE, 0)];
      freep := BASE;
      ring := [BASE];
    }

    /** The two joins of free. */
    method FreeBody(p: nat, bp: nat)
      requires p in mem && bp in mem && p != bp && mem[p].ptr in mem
      modifies this`mem
      ensures mem == Freed(old(mem), p, bp)
    {
      var n := mem[p].ptr;
      if bp + mem[bp].size == n {
        mem := mem[bp := mem[bp].(size := mem[bp].size + mem[n].size)];
        mem := mem[bp := mem[bp].(ptr := mem[n].ptr)];
      } else {
        mem := mem[bp := mem[bp].(ptr := n)];
      }
      if p + mem[p].size == bp {
        mem := mem[p := mem[p].(size := mem[p].size + mem[bp].size)];
        mem := mem[p := mem[p].(ptr := mem[bp].ptr)];
      } else {
        mem := mem[p := mem[p].(ptr := bp)];
      }
    }
  }

  /** The headers after block `b` has been freed, with `p` the free block before it. */
  ghost function Freed(mem: Mem, p: nat, b: nat): (r: Mem)
    requires p in mem && b in mem && p != b && mem[p].ptr in mem
  {
    var n := mem[p].ptr;
    var c := if b + mem[b].size == n then Header(mem[n].ptr, mem[b].size + mem[n].size) else Header(n, mem[b].size);
    var d := if p + mem[p].size == b then Header(c.ptr, mem[p].size + c.size) else Header(b, mem[p].size);
    mem[b := c][p := d]
  }

  /** Unit by unit: what was live and is not freed stays so, in the same block; the rest is free. */
  ghost predicate SameOwners(owner: map<nat, nat>, owner1: map<nat, nat>, live: set<nat>) {
    && owner1.Keys == owner.Keys
    && forall u :: u in owner ==> if owner[u] in live then owner1[u] == owner[u] else owner1[u] !in live
  }

  lemma FreeGood(mem: Mem, ring: seq<nat>, live: set<nat>, owner: map<nat, nat>, brk: nat, b: nat, k: nat)
    returns (ring2: seq<nat>, owner2: map<nat, nat>)
    requires Good(mem, ring, live, owner, brk) && b in live && ring != [] && ring[0] == BASE < b && k == Below(ring, b)
    ensures ring[k] in mem && b in mem && ring[k] != b && mem[ring[k]].ptr in mem
    ensures Good(Freed(mem, ring[k], b), ring2, live - {b}, owner2, brk) && ring[k] in ring2
    ensures SameOwners(owner, owner2, live - {b})
  {
    hide Good, Freed, SameOwners, Below, Next;
    SlotFacts(mem, ring, live, owner, brk, b, k);
    if b + mem[b].size == Next(ring, k) {
      ring2, owner2 := FreeMerging(mem, ring, live, owner, brk, b, k);
    } else {
      FreedPlain(mem, ring, live, owner, brk, b, k);
      ring2, owner2 := FreeSecond(mem, Freed(mem, ring[k], b), ring, live, owner, brk, b, k);
    }
  }

  lemma FreedPlain(mem: Mem, ring: seq<nat>, live: set<nat>, owner: map<nat, nat>, brk: nat, b: nat, k: nat)
    requires Good(mem, ring, live, owner, brk) && b in live && k < |ring| && b in mem && ring[k] in mem && ring[k] != b
    requires mem[ring[k]].ptr == Next(ring, k) && Next(ring, k) in mem && b + mem[b].size != Next(ring, k)
    ensures var m := Freed(mem, ring[k], b);
            && (forall c :: c in mem && c != ring[k] && c != b ==> c in m && m[c] == mem[c]) && ring[k] in m && b in m
            && if ring[k] + mem[ring[k]].size == b
                then m[ring[k]] == mem[ring[k]].(size := mem[ring[k]].size + mem[b].size)
               else m[ring[k]] == mem[ring[k]].(ptr := b) && m[b] == Header(Next(ring, k), mem[b].size)
  {
  }

  lemma FreeMerging(mem: Mem, ring: seq<nat>, live: set<nat>, owner: map<nat, nat>, brk: nat, b: nat, k: nat)
    returns (ring2: seq<nat>, owner2: map<nat, nat>)
    requires Good(mem, ring, live, owner, brk) && b in live && b in mem && k + 1 < |ring|
    requires b + mem[b].size == ring[k + 1]
    requires ring[k] in mem && ring[k] != b && mem[ring[k]].ptr == ring[k + 1] && ring[k + 1] in mem
    requires ring[k] + mem[ring[k]].size <= b
    ensures Good(Freed(mem, ring[k], b), ring2, live - {b}, owner2, brk) && ring[k] in ring2
    ensures SameOwners(owner, owner2, live - {b})
  {
    var n := ring[k + 1];
    var mem1 := mem[ring[k] := mem[ring[k]].(ptr := mem[n].ptr)][b := Header(mem[n].ptr, mem[b].size + mem[n].size)];
    hide Good, Cut, Relabel, Next, Freed, SameOwners;
    MergeNext(mem, mem1, ring, live, owner, brk, b, k);
    CutNext(mem, mem1, ring, live, owner, Relabel(owner, n, b), brk, k);
    Apart(mem, ring, live, owner, brk, k + 1);
    FreedMerging(mem, mem1, ring, b, k);
    RelabelFree(owner, n, b, live);
    ring2, owner2 := FreeSecond(mem1, Freed(mem, ring[k], b), Cut(ring, k), live, Relabel(owner, n, b), brk, b, k);
  }

  lemma FreedMerging(mem: Mem, mem1: Mem, ring: seq<nat>, b: nat, k: nat)
    requires b in mem && k + 1 < |ring| && ring[k] in mem && ring[k] != b && ring[k + 1] != b && ring[k] != ring[k + 1]
    requires mem[ring[k]].ptr == ring[k + 1] && ring[k + 1] in mem && b + mem[b].size == ring[k + 1]
    requires var n := ring[k + 1];
             mem1 == mem[ring[k] := mem[ring[k]].(ptr := mem[n].ptr)]
                        [b := Header(mem[n].ptr, mem[b].size + mem[n].size)]
    ensures var m := Freed(mem, ring[k], b);
            && (forall c :: c in mem1 && c != ring[k] && c != b ==> c in m && m[c] == mem1[c]) && ring[k] in m && b in m
            && if ring[k] + mem[ring[k]].size == b
                then m[ring[k]] == mem1[ring[k]].(size := mem1[ring[k]].size + mem1[b].size)
               else m[ring[k]] == mem1[ring[k]].(ptr := b) && m[b] == Header(mem[ring[k + 1]].ptr, mem1[b].size)
  {
  }

  lemma RelabelFree(owner: map<nat, nat>, n: nat, b: nat, live: set<nat>)
    requires n !in live && b in live
    ensures SameOwners(owner, Relabel(owner, n, b), live - {b})
  {
  }

  /** Once the block after it is dealt with. */
  lemma FreeSecond(mem: Mem, mem2: Mem, ring: seq<nat>, live: set<nat>, owner: map<nat, nat>, brk: nat, b: nat, k: nat)
    returns (ring2: seq<nat>, owner2: map<nat, nat>)
    requires Good(mem, ring, live, owner, brk) && b in live && b in mem && k < |ring|
    requires ring[k] + mem[ring[k]].size <= b
    requires k + 1 < |ring| ==> b + mem[b].size < ring[k + 1]
    requires forall c :: c in mem && c != ring[k] && c != b && Kept(ring, live, c) ==> c in mem2 && mem2[c] == mem[c]
    requires ring[k] in mem2 && b in mem2
    requires if ring[k] + mem[ring[k]].size == b
              then mem2[ring[k]] == mem[ring[k]].(size := mem[ring[k]].size + mem[b].size)
             else mem2[ring[k]] == mem[ring[k]].(ptr := b) && mem2[b] == Header(Next(ring, k), mem[b].size)
    ensures Good(mem2, ring2, live - {b}, owner2, brk) && ring[k] in ring2 && SameOwners(owner, owner2, live - {b})
  {
    if ring[k] + mem[ring[k]].size == b {
      MergePrev(mem, mem2, ring, live, owner, brk, b, k);
      Apart(mem, ring, live, owner, brk, k);
      return ring, Relabel(owner, b, ring[k]);
    } else {
      Join(mem, mem2, ring, live, owner, brk, b, k);
      assert Insert(ring, k, b)[k] == ring[k];
      return Insert(ring, k, b), owner;
    }
  }

  /** The size of a header in bytes, and the units that a request takes with its header. */
  const HEADER := 16

  function NUnits(nbytes: nat): (n: nat)
    ensures n > 0 && nbytes <= (n - 1) * HEADER < nbytes + HEADER
  {
    (nbytes + HEADER - 1) / HEADER + 1
  }

  /** How many steps along the ring until the search is at `freep`, at place `f`, again. */
  ghost function Ahead(n: nat, f: nat, i: nat): (d: nat)
    requires f < n && i < n
  {
    if i < f then f - i - 1 else n - i - 1 + f
  }

  /** The search has come from place `f` to place `i` and nothing on the way fits. */
  ghost predicate Seen(mem: Mem, ring: seq<nat>, f: nat, i: nat, n: nat) {
    forall j :: 0 <= j < |ring| && (if i >= f then f < j <= i else j > f || j <= i) ==>
        ring[j] in mem && mem[ring[j]].size < n
  }

  /** `a` is the end of the first block after `freep` that has `n` units, at place `i + 1`. */
  ghost predicate Fitting(mem: Mem, ring: seq<nat>, freep: nat, n: nat, a: nat, f: nat, i: nat) {
    && f < |ring| && i < |ring| && ring[f] == freep && Seen(mem, ring, f, i, n)
    && Next(ring, i) in mem && mem[Next(ring, i)].size >= n && a + n == Next(ring, i) + mem[Next(ring, i)].size
  }

  ghost predicate FirstFit(mem: Mem, ring: seq<nat>, freep: nat, n: nat, a: nat) {
    exists f, i :: Fitting(mem, ring, freep, n, a, f, i)
  }

  lemma SeenNone(mem: Mem, ring: seq<nat>, f: nat, n: nat)
    ensures Seen(mem, ring, f, f, n)
  {
  }

  lemma SeenMore(mem: Mem, ring: seq<nat>, f: nat, i: nat, n: nat)
    requires ring != [] && f < |ring| && i < |ring| && Next(ring, i) in mem && mem[Next(ring, i)].size < n
    requires Next(ring, i) != ring[f]
    ensures Seen(mem, ring, f, i, n) ==> Seen(mem, ring, f, if i + 1 < |ring| then i + 1 else 0, n)
  {
  }

  lemma SeenAll(mem: Mem, ring: seq<nat>, f: nat, i: nat, n: nat)
    requires ring != [] && f < |ring| && i < |ring| && Next(ring, i) == ring[f] && Ahead(|ring|, f, i) == 0
    requires ring[f] in mem && mem[ring[f]].size < n
    ensures Seen(mem, ring, f, i, n) ==> NoneFits(mem, ring, n)
  {
  }

  /** The search is at `freep` again exactly when it has been all around. */
  lemma Around(mem: Mem, ring: seq<nat>, live: set<nat>, owner: map<nat, nat>, brk: nat, f: nat, i: nat)
    requires Good(mem, ring, live, owner, brk) && f < |ring| && i < |ring|
    ensures Next(ring, i) == ring[if i + 1 < |ring| then i + 1 else 0]
    ensures Next(ring, i) == ring[f] <==> Ahead(|ring|, f, i) == 0
    ensures Ahead(|ring|, f, i) > 0 ==> Ahead(|ring|, f, if i + 1 < |ring| then i + 1 else 0) == Ahead(|ring|, f, i) - 1
    ensures i == f && Next(ring, i) == ring[f] ==> mem[ring[f]].ptr == ring[f]
  {
    NextPtr(mem, ring, f);
    Apart(mem, ring, live, owner, brk, f);
    Apart(mem, ring, live, owner, brk, if i + 1 < |ring| then i + 1 else 0);
  }

  /** A block that fits is ahead: the next one, if the search has only begun, or that at `freep`. */
  ghost predicate Pending(mem: Mem, freep: nat, n: nat, begun: bool) {
    Room(mem, freep, n) && (begun || (mem[freep].ptr in mem && mem[mem[freep].ptr].size < n))
  }

  lemma PendingMore(mem: Mem, freep: nat, n: nat, begun: bool, p: nat)
    requires freep in mem && p in mem && mem[p].size < n && (begun ==> p == mem[freep].ptr)
    ensures Pending(mem, freep, n, begun) ==> Pending(mem, freep, n, false)
  {
  }

  lemma PendingFirst(mem: Mem, freep: nat, n: nat)
    requires Room(mem, freep, n)
    ensures Pending(mem, freep, n, true)
  {
  }

  /** After morecore the search does not come around empty-handed. */
  lemma Closed(mem: Mem, freep: nat, n: nat, calls: nat, ring: seq<nat>, f: nat, i: nat)
    requires freep in mem && mem[freep].size < n && calls <= 1
    requires calls == 1 ==> Pending(mem, freep, n, i == f)
    requires i == f ==> mem[freep].ptr == freep
    ensures calls == 0
  {
  }

  /** How many units morecore asks for. */
  function Units(nu: nat): nat { if nu < 4096 then 4096 else nu }

  /** To the units there were, those that sbrk gave at `at` have come, and no unit is lost. */
  ghost predicate Obtained(owner: map<nat, nat>, owner1: map<nat, nat>, brk: nat, at: nat, nu: nat) {
    brk == at + Units(nu) && forall u :: u in owner1 <==> u in owner || at <= u < brk
  }

  lemma RoomLess(mem: Mem, freep: nat, n: nat, m: nat)
    requires Room(mem, freep, n) && m <= n
    ensures Room(mem, freep, m)
  {
  }

  lemma TakeFacts(mem: Mem, ring: seq<nat>, live: set<nat>, owner: map<nat, nat>, brk: nat, i: nat)
    requires Good(mem, ring, live, owner, brk) && i < |ring|
    ensures ring[i] in mem && Next(ring, i) in mem && mem[ring[i]].ptr == Next(ring, i) && ring[i] > 0
    ensures mem[Next(ring, i)].size > 0 ==> i + 1 < |ring| && ring[i + 1] == Next(ring, i) && ring[i] != ring[i + 1]
    ensures ring[i] !in live && Next(ring, i) !in live
  {
    NextPtr(mem, ring, i);
    if i > 0 { Ascending(mem, ring, 0, i); }
    if i + 1 < |ring| { Ascending(mem, ring, i, i + 1); assert ring[i + 1] in ring; }
    assert ring[i] in ring && ring[0] in ring;
  }

  lemma CutKeeps(ring: seq<nat>, k: nat)
    requires k + 1 < |ring|
    ensures ring[k] in Cut(ring, k)
  {
    assert Cut(ring, k)[k] == ring[k];
  }

  /** Carving the tail of a free block leaves the units of live blocks alone. */
  lemma CarveLive(mem: Mem, ring: seq<nat>, live: set<nat>, owner: map<nat, nat>, brk: nat, k: nat, a: nat, n: nat)
    requires Good(mem, ring, live, owner, brk) && 1 <= k < |ring| && 0 < n < mem[ring[k]].size
    requires a == ring[k] + mem[ring[k]].size - n
    ensures Carve(owner, a, n).Keys == owner.Keys
    ensures forall u :: u in owner && owner[u] in live ==> Carve(owner, a, n)[u] == owner[u]
  {
    Apart(mem, ring, live, owner, brk, k);
    assert forall u :: a <= u < a + n ==> u in owner && owner[u] == ring[k];
  }

  lemma LiveHeaders(mem: Mem, ring: seq<nat>, live: set<nat>, owner: map<nat, nat>, brk: nat)
    requires Good(mem, ring, live, owner, brk)
    ensures forall b :: b in live ==> b in mem && b !in ring && b > BASE
  {
    forall b | b in live ensures b in mem && b !in ring && b > BASE { LiveBlock(mem, ring, live, owner, brk, b); }
  }

  lemma OwnersBelow(mem: Mem, ring: seq<nat>, live: set<nat>, owner: map<nat, nat>, brk: nat)
    requires Good(mem, ring, live, owner, brk)
    ensures forall u :: u in owner ==> u < brk
  {
    forall u | u in owner ensures u < brk { assert Within(mem, owner, brk, u); }
  }

  /** Some block that the search from `freep` meets at once, or at last, has `n` units. */
  ghost predicate Room(mem: Mem, freep: nat, n: nat) {
    freep in mem && (mem[freep].size >= n || (mem[freep].ptr in mem && mem[mem[freep].ptr].size >= n))
  }

  lemma GoodRing(mem: Mem, ring: seq<nat>, live: set<nat>, owner: map<nat, nat>, brk: nat)
    requires Good(mem, ring, live, owner, brk)
    ensures ring != [] && ring[0] == BASE
  {
  }

  lemma LiveBlock(mem: Mem, ring: seq<nat>, live: set<nat>, owner: map<nat, nat>, brk: nat, b: nat)
    requires Good(mem, ring, live, owner, brk) && b in live
    ensures b in mem && b > BASE && b !in ring && mem[b].size > 0
  {
    assert Block(ring, live, b) && Owns(mem, owner, b);
  }

  lemma SlotFacts(mem: Mem, ring: seq<nat>, live: set<nat>, owner: map<nat, nat>, brk: nat, b: nat, k: nat)
    requires Good(mem, ring, live, owner, brk) && b in live && ring != [] && ring[0] == BASE < b && k == Below(ring, b)
    ensures k < |ring| && ring[k] in mem && mem[ring[k]].ptr == Next(ring, k) && Next(ring, k) in mem && b in mem
    ensures ring[k] != b
    ensures ring[k] >= BASE && ring[k] + mem[ring[k]].size <= b
    ensures k + 1 < |ring| ==> Next(ring, k) == ring[k + 1] && b + mem[b].size <= ring[k + 1]
    ensures k + 1 == |ring| ==> Next(ring, k) == BASE
  {
    NextPtr(mem, ring, k);
    if k > 0 { Ascending(mem, ring, 0, k); }
    LiveBlock(mem, ring, live, owner, brk, b);
    assert ring[k] in ring;
    Between(mem, ring, live, owner, brk, b, k);
  }

  /** Where the search for the place of `bp` may stop. */
  lemma SlotOnly(mem: Mem, ring: seq<nat>, bp: nat, i: nat, k: nat)
    requires RingOk(mem, ring) && bp > BASE && bp !in ring && i < |ring| && k == Below(ring, bp)
    ensures ring[i] < bp < Next(ring, i) ==> i == k
    ensures i + 1 < |ring| ==> ring[i] < Next(ring, i)
    ensures i + 1 == |ring| ==> Next(ring, i) == BASE <= ring[i] && (bp > ring[i] <==> i == k)
    ensures i == k && i + 1 < |ring| ==> ring[i] < bp < Next(ring, i)
  {
    if i < k { Ascending(mem, ring, i, k); if i + 1 < k { Ascending(mem, ring, i + 1, k); } }
    if i + 1 < |ring| { Ascending(mem, ring, i, i + 1); assert ring[i + 1] in ring; }
    assert ring[i] in ring;
    if i > 0 { Ascending(mem, ring, 0, i); }
  }

  /** With the next block cut out, the block before is followed by the one after, if any. */
  lemma CutNext(mem: Mem, mem1: Mem, ring: seq<nat>, live: set<nat>, owner: map<nat, nat>, owner1: map<nat, nat>,
                brk: nat, k: nat)
    requires Good(mem, ring, live, owner, brk) && k + 1 < |ring| && Good(mem1, Cut(ring, k), live, owner1, brk)
    ensures mem[ring[k + 1]].ptr == Next(Cut(ring, k), k)
    ensures k + 1 < |Cut(ring, k)| ==> ring[k + 1] + mem[ring[k + 1]].size < Cut(ring, k)[k + 1]
  {
  }

  lemma FreedLive(mem: Mem, ring: seq<nat>, live: set<nat>, owner: map<nat, nat>, brk: nat, b: nat, k: nat)
    requires Good(mem, ring, live, owner, brk) && b in live && k < |ring| && ring[k] in mem && b in mem
    requires ring[k] != b && mem[ring[k]].ptr in mem
    ensures forall c :: c in live && c != b ==>
              c in mem && c in Freed(mem, ring[k], b) && Freed(mem, ring[k], b)[c] == mem[c]
    ensures Room(Freed(mem, ring[k], b), ring[k], mem[b].size)
  {
    forall c | c in live && c != b ensures c in mem && c != ring[k] {
      LiveBlock(mem, ring, live, owner, brk, c);
      assert ring[k] in ring;
    }
  }
}
