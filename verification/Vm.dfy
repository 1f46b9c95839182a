/** The page allocator and the user page-table code over it (kernel/kalloc.c, kernel/vm.c).
    A panic is a demand on the caller and appears as a precondition. */
module Vm {
  import opened Basics
  import opened PageTable
  import opened PageCost

  ghost predicate Distinct(l: seq<nat>) {
    forall i, j :: 0 <= i < j < |l| ==> l[i] != l[j]
  }

  /** The free list threads `l` through the first words of its pages. */
  ghost predicate Chain(mem: Mem, head: nat, l: seq<nat>)
    decreases l
  {
    if l == [] then head == 0
    else head == l[0] && head in mem && Chain(mem, mem[head][0], l[1..])
  }

  lemma {:induction false} ChainUnrelated(mem: Mem, mem': Mem, head: nat, l: seq<nat>)
    requires Chain(mem, head, l)
    requires forall p :: p in l ==> p in mem' && (p in mem ==> mem'[p] == mem[p])
    ensures Chain(mem', head, l)
    decreases l
  {
    if l != [] { ChainUnrelated(mem, mem', mem[head][0], l[1..]); }
  }

  /** From one moment to another the free pages and the pages of a tree were only exchanged, and
      no other page was written. */
  ghost predicate Exchanged(m: Mem, f: seq<nat>, ts: Tables, m': Mem, f': seq<nat>, ts': Tables) {
    && m'.Keys == m.Keys
    && Elems(f') + ts'.Keys == Elems(f) + ts.Keys
    && forall p :: p in m && p !in f && p !in ts ==> m'[p] == m[p]
  }

  lemma NothingExchanged(m: Mem, f: seq<nat>, ts: Tables)
    ensures Exchanged(m, f, ts, m, f, ts)
  {
  }

  lemma ExchangedTwice(m: Mem, f: seq<nat>, ts: Tables, m1: Mem, f1: seq<nat>, ts1: Tables,
                       m2: Mem, f2: seq<nat>, ts2: Tables)
    requires Exchanged(m, f, ts, m1, f1, ts1) && Exchanged(m1, f1, ts1, m2, f2, ts2)
    ensures Exchanged(m, f, ts, m2, f2, ts2)
  {
    forall p | p in m && p !in f && p !in ts ensures m2[p] == m[p] {
      assert p !in Elems(f1) + ts1.Keys;
    }
  }

  /** As Exchanged, but with frame `z` taken out of the pages exchanged. */
  ghost predicate Placed(m: Mem, f: seq<nat>, ts: Tables, m': Mem, f': seq<nat>, ts': Tables, z: nat) {
    && m'.Keys == m.Keys && z in m && z in f
    && z !in f' && z !in ts'
    && Elems(f') + ts'.Keys + {z} == Elems(f) + ts.Keys
    && forall p :: p in m && p !in f && p !in ts ==> m'[p] == m[p]
  }

  /** kalloc took `z` off the free list and only `z` was written. */
  ghost predicate Taken(m: Mem, f: seq<nat>, m': Mem, f': seq<nat>, z: nat) {
    && m'.Keys == m.Keys && z in m && z !in f'
    && Elems(f) == Elems(f') + {z}
    && forall p :: p in m && p != z ==> m'[p] == m[p]
  }

  class Machine {
    /** Every page from the end of the kernel to PHYSTOP, by address. */
    var mem: Mem
    /** `kmem.freelist`; zero ends the list. */
    var freelist: nat
    ghost var free: seq<nat>

    ghost predicate Valid()
      reads this
    {
      && (forall p :: p in mem ==> p != 0 && p % PGSIZE == 0)
      && Chain(mem, freelist, free) && Distinct(free) && Elems(free) <= mem.Keys
    }

    /** A tree whose pages are neither free nor outside memory. */
    ghost predicate Owns(root: nat, ts: Tables)
      reads this
    {
      Valid() && Tree(mem, root, ts) && ts.Keys !! Elems(free)
    }

    method Kalloc() returns (pa: nat)
      requires Valid()
      modifies this
      ensures Valid()
      ensures old(free) == [] ==> pa == 0 && mem == old(mem) && free == old(free)
      ensures old(free) != [] ==>
                pa == old(free)[0] && free == old(free)[1..] && mem == old(mem)[pa := FilledPage(0x0505050505050505)]
    {
      pa := freelist;
      if pa != 0 {
        freelist := mem[pa][0];
        mem := mem[pa := FilledPage(0x0505050505050505)];
        free := free[1..];
        ChainUnrelated(old(mem), mem, freelist, free);
      }
    }

    method Kfree(pa: nat)
      requires Valid() && pa in mem && pa !in free
      modifies this
      ensures Valid()
      ensures free == [pa] + old(free)
      ensures mem.Keys == old(mem).Keys && forall p :: p in mem && p != pa ==> mem[p] == old(mem)[p]
    {
      mem := mem[pa := FilledPage(0x0101010101010101)];
      mem := mem[pa := mem[pa][0 := freelist]];
      freelist := pa;
      free := [pa] + free;
      assert free[1..] == old(free);
      ChainUnrelated(old(mem), mem, old(freelist), old(free));
    }

    /** walk's allocating branch: a fresh zeroed page under the empty entry `i` of table `t`. */
    method NewTable(root: nat, ghost ts: Tables, ghost v: nat, level: nat, t: nat, i: nat)
      returns (z: nat, ghost ts': Tables)
      requires Owns(root, ts) && 1 <= level <= 2 && t != 0 && t == TableFor(mem, root, ts, v, level)
      requires v < NVPN && i == Px(level, v) && !Present(mem[t][i])
      modifies this
      ensures Owns(root, ts') && Exchanged(old(mem), old(free), ts, mem, free, ts')
      ensures z == 0 <==> old(free) == []
      ensures z == 0 ==> ts' == ts && mem == old(mem) && free == []
      ensures z != 0 ==> TableFor(mem, root, ts', v, level - 1) == z
      ensures Step(v, level - 1) !in ts.Values && (z != 0 ==> Spent(0, {Step(v, level - 1)}, ts, ts', old(free), free))
      ensures forall u :: 0 <= u < NVPN ==> Flat(mem, root, ts', u) == Flat(old(mem), root, ts, u)
    {
      hide Px, Attached, EntryOk, MkPte, Spent, Lacking;
      RootIndex(v);
      NoTable(mem, root, ts, v, level, t);
      z := Kalloc();
      ts' := ts;
      if z != 0 {
        ghost var m0 := mem;
        Unrelated(old(mem), m0, root, ts);
        UnrelatedPath(old(mem), m0, root, ts, v, level);
        mem := mem[z := FilledPage(0)];
        mem := mem[t := mem[t][i := MkPte(z, 0)]];
        ts' := ts[z := Child(ts[t], i)];
        assert mem == WithTable(m0, t, i, z);
        AddTableTree(m0, root, ts, t, i, z);
        AddTable(m0, root, ts, t, i, z, v);
        forall u | 0 <= u < NVPN ensures Flat(mem, root, ts', u) == Flat(old(mem), root, ts, u) {
          AddTable(m0, root, ts, t, i, z, u);
        }
        ChainUnrelated(m0, mem, freelist, free);
        TakeFirst(old(free), z);
        SpentTable(ts, z, Step(v, level - 1), old(free), free);
      }
    }

    /** walk: the lowest-level table page holding the entry for `va`, at index PX(0, va); zero if
        there is none and none could be made. Making tables leaves the flat map alone. */
    method Walk(root: nat, ghost ts: Tables, va: nat, alloc: bool) returns (t: nat, ghost ts': Tables)
      requires Owns(root, ts) && va < MAXVA
      modifies this
      ensures Owns(root, ts') && Exchanged(old(mem), old(free), ts, mem, free, ts')
      ensures t == TableFor(mem, root, ts', va / PGSIZE, 0)
      ensures !alloc ==> mem == old(mem) && free == old(free) && ts' == ts
      ensures alloc && t == 0 ==> free == []
      ensures alloc ==> (t != 0 <==> |old(free)| >= Lacking(Path(va / PGSIZE), ts))
      ensures alloc && t != 0 ==> Spent(0, Path(va / PGSIZE), ts, ts', old(free), free)
      ensures forall u :: 0 <= u < NVPN ==> Flat(mem, root, ts', u) == Flat(old(mem), root, ts, u)
    {
      hide Px, Attached, Chain, Flat, Exchanged, Distinct, Elems, Spent, Lacking;
      var v := va / PGSIZE;
      var level := 2;
      t := root;
      ts' := ts;
      NothingExchanged(mem, free, ts);
      SpentNothing(ts, free);
      while level > 0
        invariant 0 <= level <= 2
        invariant Owns(root, ts') && Exchanged(old(mem), old(free), ts, mem, free, ts')
        invariant t != 0 && t == TableFor(mem, root, ts', v, level)
        invariant !alloc ==> mem == old(mem) && free == old(free) && freelist == old(freelist) && ts' == ts
        invariant alloc ==> Spent(0, PathTo(v, level), ts, ts', old(free), free)
        invariant forall u :: 0 <= u < NVPN ==> Flat(mem, root, ts', u) == Flat(old(mem), root, ts, u)
      {
        var i := Px(level, v);
        assert EntryOk(mem, ts', t, i);
        if Present(mem[t][i]) {
          t := Pa(mem[t][i]);
          if alloc { SpentThere(v, level, t, ts, ts', old(free), free); }
        } else {
          if !alloc {
            NoPath(mem, root, ts', v, level);
            return 0, ts';
          }
          ghost var m1, f1, ts1 := mem, free, ts';
          t, ts' := NewTable(root, ts', v, level, t, i);
          ExchangedTwice(old(mem), old(free), ts, m1, f1, ts1, mem, free, ts');
          if t == 0 {
            NoPath(mem, root, ts', v, level);
            SpentAll(v, level, ts, ts', old(free), free);
            return 0, ts';
          }
          SpentTwice(0, PathTo(v, level), 0, {Step(v, level - 1)}, ts, ts1, ts', old(free), f1, free);
          assert PathTo(v, level) + {Step(v, level - 1)} == PathTo(v, level - 1);
        }
        level := level - 1;
      }
      if alloc { SpentEnough(0, Path(v), ts, ts', old(free), free); }
    }

    /** `*pte = x` for the entry of page `v`, which lies in table `t`. */
    method SetEntry(root: nat, ghost ts: Tables, v: nat, t: nat, x: nat)
      requires Owns(root, ts) && v < NVPN && t != 0 && t == TableFor(mem, root, ts, v, 0)
      modifies `mem
      ensures Owns(root, ts)
      ensures mem.Keys == old(mem).Keys && forall p :: p in mem && p !in ts ==> mem[p] == old(mem)[p]
      ensures forall u :: 0 <= u < NVPN ==> Flat(mem, root, ts, u) == if u == v then x else Flat(old(mem), root, ts, u)
    {
      SetLeaf(mem, root, ts, v, x);
      mem := mem[t := mem[t][Px(0, v) := x]];
      ChainUnrelated(old(mem), mem, freelist, free);
    }

    /** One turn of mappages' loop: walk, then store the entry. */
    method MapOne(root: nat, ghost ts: Tables, v: nat, x: nat) returns (ok: bool, ghost ts': Tables)
      requires Owns(root, ts) && v < NVPN && !Present(Flat(mem, root, ts, v))
      modifies this
      ensures Owns(root, ts') && Exchanged(old(mem), old(free), ts, mem, free, ts')
      ensures !ok ==> free == []
      ensures ok <==> |old(free)| >= Lacking(Path(v), ts)
      ensures ok ==> Spent(0, Path(v), ts, ts', old(free), free)
      ensures forall u :: 0 <= u < NVPN ==>
                Flat(mem, root, ts', u) == if ok && u == v then x else Flat(old(mem), root, ts, u)
    {
      hide Flat, TableFor, Tree, Chain, Spent, Path, Lacking;
      var t;
      t, ts' := Walk(root, ts, v * PGSIZE, true);
      if t == 0 {
        return false, ts';
      }
      SetEntry(root, ts', v, t, x);
      return true, ts';
    }

    /** mappages: maps the pages of [va, va + size) to consecutive frames. It stops at the first
        page it has no table for, with the `k` pages before it mapped. */
    method Mappages(root: nat, ghost ts: Tables, va: nat, size: nat, pa: nat, perm: nat)
      returns (ok: bool, ghost ts': Tables, ghost k: nat)
      requires Owns(root, ts) && size > 0 && va + size <= MAXVA && perm < 1024
      requires forall u :: va / PGSIZE <= u <= (va + size - 1) / PGSIZE ==> !Present(Flat(mem, root, ts, u))
      modifies this
      ensures Owns(root, ts') && Exchanged(old(mem), old(free), ts, mem, free, ts')
      ensures var n := (va + size - 1) / PGSIZE - va / PGSIZE + 1;
              if ok then k == n else k < n && free == []
      ensures var ns := Paths(va / PGSIZE, (va + size - 1) / PGSIZE + 1);
              && (ok <==> |old(free)| >= Lacking(ns, ts)) && (ok ==> Spent(0, ns, ts, ts', old(free), free))
      ensures forall u :: 0 <= u < NVPN ==>
                Flat(mem, root, ts', u) ==
                if va / PGSIZE <= u < va / PGSIZE + k then MkPte(pa + (u - va / PGSIZE) * PGSIZE, perm)
                else Flat(old(mem), root, ts, u)
    {
      hide MkPte, Flat, Tree, Chain, Exchanged, Spent, Path, Lacking;
      ExchangedNot(mem, free, ts);
      SpentNothing(ts, free);
      var first, last := va / PGSIZE, (va + size - 1) / PGSIZE;
      var a, frame := first, pa;
      ts', k := ts, 0;
      while true
        invariant first <= a <= last && k == a - first && frame == pa + (a - first) * PGSIZE
        invariant Owns(root, ts') && Exchanged(old(mem), old(free), ts, mem, free, ts')
        invariant Spent(0, Paths(first, a), ts, ts', old(free), free)
        invariant forall u :: 0 <= u < NVPN ==>
                    Flat(mem, root, ts', u) ==
                    if first <= u < a then MkPte(pa + (u - first) * PGSIZE, perm) else Flat(old(mem), root, ts, u)
        decreases last - a
      {
        ghost var m, f, s := mem, free, ts';
        ok, ts' := MapOne(root, ts', a, MkPte(frame, perm));
        ExchangedAgain(old(mem), old(free), ts, m, f, s, mem, free, ts');
        if !ok {
          PathsGrow(first, a + 1, last + 1);
          TooLittle(0, Paths(first, a), 0, Path(a), 0, Paths(first, last + 1), ts, s, old(free), f);
          return false, ts', k;
        }
        SpentTwice(0, Paths(first, a), 0, Path(a), ts, s, ts', old(free), f, free);
        k := k + 1;
        if a == last {
          SpentEnough(0, Paths(first, last + 1), ts, ts', old(free), free);
          return true, ts', k;
        }
        a := a + 1;
        frame := frame + PGSIZE;
      }
    }

    /** kfree of a frame that is not a table of this tree. */
    method FreeFrame(root: nat, ghost ts: Tables, pa: nat)
      requires Owns(root, ts) && pa in mem && pa !in free && pa !in ts
      modifies this
      ensures Owns(root, ts) && free == [pa] + old(free)
      ensures mem.Keys == old(mem).Keys && forall p :: p in mem && p != pa ==> mem[p] == old(mem)[p]
      ensures forall u :: 0 <= u < NVPN ==> Flat(mem, root, ts, u) == Flat(old(mem), root, ts, u)
    {
      Kfree(pa);
      Unrelated(old(mem), mem, root, ts);
    }

    /** One turn of uvmunmap's loop. */
    method UnmapOne(root: nat, ghost ts: Tables, v: nat, doFree: bool)
      requires Owns(root, ts) && v < NVPN && Present(Flat(mem, root, ts, v))
      requires doFree ==> FrameOk(mem, free, root, ts, v)
      modifies this
      ensures Owns(root, ts) && mem.Keys == old(mem).Keys
      ensures forall u :: 0 <= u < NVPN ==> Flat(mem, root, ts, u) == if u == v then 0 else Flat(old(mem), root, ts, u)
      ensures free == (if doFree then [Pa(Flat(old(mem), root, ts, v))] else []) + old(free)
      ensures forall p :: p in mem && p !in ts && p !in free ==> mem[p] == old(mem)[p]
    {
      hide Chain, EntryOk, Attached;
      var t;
      ghost var ts';
      t, ts' := Walk(root, ts, v * PGSIZE, false);
      assert t != 0;
      var pte := mem[t][Px(0, v)];
      if doFree {
        ghost var m := mem;
        FreeFrame(root, ts, Pa(pte));
        UnrelatedPath(m, mem, root, ts, v, 0);
      }
      SetEntry(root, ts, v, t, 0);
    }

    /** uvmunmap: removes exactly the mappings of its range, and frees exactly their frames when
        asked to. */
    method Uvmunmap(root: nat, ghost ts: Tables, va: nat, npages: nat, doFree: bool)
      requires Owns(root, ts) && va % PGSIZE == 0 && va + npages * PGSIZE <= MAXVA
      requires forall u :: va / PGSIZE <= u < va / PGSIZE + npages ==>
                 Present(Flat(mem, root, ts, u)) && Flags(Flat(mem, root, ts, u)) != PTE_V
      requires doFree ==> Frames(mem, free, root, ts, va / PGSIZE, va / PGSIZE + npages)
      modifies this
      ensures Owns(root, ts) && mem.Keys == old(mem).Keys
      ensures forall u :: 0 <= u < NVPN ==>
                Flat(mem, root, ts, u) ==
                if va / PGSIZE <= u < va / PGSIZE + npages then 0 else Flat(old(mem), root, ts, u)
      ensures Elems(free) == Elems(old(free)) +
                             if doFree then FrameSet(old(mem), root, ts, va / PGSIZE, va / PGSIZE + npages) else {}
      ensures forall p :: p in mem && p !in ts && p !in free ==> mem[p] == old(mem)[p]
    {
      hide Tree, Chain, Flat, Pa, FrameSet;
      var lo, hi := va / PGSIZE, va / PGSIZE + npages;
      assert FrameSet(mem, root, ts, lo, lo) == {} by { NoFrames(mem, root, ts, lo); }
      ghost var m := mem;
      var a := lo;
      while a < hi
        invariant lo <= a <= hi
        invariant Owns(root, ts) && mem.Keys == m.Keys
        invariant forall u :: 0 <= u < NVPN ==>
                  Flat(mem, root, ts, u) == if lo <= u < a then 0 else Flat(m, root, ts, u)
        invariant Elems(free) == Elems(old(free)) + if doFree then FrameSet(m, root, ts, lo, a) else {}
        invariant forall p :: p in mem && p !in ts && p !in free ==> mem[p] == m[p]
      {
        if doFree {
          FrameSetGrows(m, old(free), root, ts, lo, hi, a);
          assert Pa(Flat(m, root, ts, a)) !in Elems(free);
          assert FrameOk(mem, free, root, ts, a);
        }
        ghost var f := free;
        UnmapOne(root, ts, a, doFree);
        ElemsOfSum(if doFree then [Pa(Flat(m, root, ts, a))] else [], f);
        a := a + 1;
      }
    }

    /** kalloc, then fill the page. */
    method TakeFrame(root: nat, ghost ts: Tables, data: Page) returns (z: nat)
      requires Owns(root, ts)
      modifies this
      ensures Owns(root, ts)
      ensures z == 0 <==> old(free) == []
      ensures z == 0 ==> mem == old(mem) && free == old(free)
      ensures z != 0 ==> Taken(old(mem), old(free), mem, free, z) && mem[z] == data && z !in ts
      ensures z != 0 ==> |free| + 1 == |old(free)|
      ensures forall u :: 0 <= u < NVPN ==> Flat(mem, root, ts, u) == Flat(old(mem), root, ts, u)
    {
      z := Kalloc();
      if z != 0 {
        TakeFirst(old(free), z);
        ghost var m := mem;
        mem := mem[z := data];
        ChainUnrelated(m, mem, freelist, free);
        Unrelated(old(mem), mem, root, ts);
      }
    }

    /** A frame taken from the free list, filled with `data` and mapped at page `v`; or, if memory
        runs out, nothing mapped and the frame given back. */
    method PlaceOne(root: nat, ghost ts: Tables, v: nat, data: Page, perm: nat) returns (ok: bool, ghost ts': Tables)
      requires Owns(root, ts) && v < NVPN && !Present(Flat(mem, root, ts, v)) && perm < 1024
      modifies this
      ensures Owns(root, ts')
      ensures forall u :: 0 <= u < NVPN && (!ok || u != v) ==> Flat(mem, root, ts', u) == Flat(old(mem), root, ts, u)
      ensures !ok ==> Exchanged(old(mem), old(free), ts, mem, free, ts')
      ensures ok ==> Placed(old(mem), old(free), ts, mem, free, ts', Pa(Flat(mem, root, ts', v)))
      ensures ok ==> Flat(mem, root, ts', v) == MkPte(Pa(Flat(mem, root, ts', v)), perm)
      ensures ok ==> Pa(Flat(mem, root, ts', v)) in mem && mem[Pa(Flat(mem, root, ts', v))] == data
      ensures ok <==> |old(free)| >= 1 + Lacking(Path(v), ts)
      ensures ok ==> Spent(1, Path(v), ts, ts', old(free), free)
    {
      hide Tree, Chain, Flat, Pa, MkPte, Exchanged, Placed, Taken, Elems, Distinct, Path, Lacking;
      assert Paths(v, v + 1) == Path(v) by { assert Paths(v, v) == {}; }
      var z := TakeFrame(root, ts, data);
      if z == 0 {
        ExchangedNot(mem, free, ts);
        return false, ts;
      }
      ghost var m, f := mem, free;
      ghost var k;
      ok, ts', k := Mappages(root, ts, v * PGSIZE, PGSIZE, z, perm);
      TakenThenExchanged(old(mem), old(free), ts, m, f, mem, free, ts', z);
      if !ok {
        ghost var f' := free;
        ghost var m' := mem;
        FreeFrame(root, ts', z);
        GivenBack(old(mem), old(free), ts, m', f', ts', mem, free, z);
      } else {
        PteFields(z, perm);
      }
    }

    /** uvmdealloc: unmaps and frees the pages between the two sizes. */
    method Uvmdealloc(root: nat, ghost ts: Tables, oldsz: nat, newsz: nat) returns (sz: nat)
      requires Owns(root, ts) && PageUp(oldsz) <= MAXVA
      requires forall u :: PageUp(newsz) / PGSIZE <= u < PageUp(oldsz) / PGSIZE ==>
                 Present(Flat(mem, root, ts, u)) && Flags(Flat(mem, root, ts, u)) != PTE_V
      requires Frames(mem, free, root, ts, PageUp(newsz) / PGSIZE, PageUp(oldsz) / PGSIZE)
      modifies this
      ensures sz == if newsz >= oldsz then oldsz else newsz
      ensures Owns(root, ts) && mem.Keys == old(mem).Keys
      ensures forall u :: 0 <= u < NVPN ==>
                Flat(mem, root, ts, u) ==
                if PageUp(newsz) / PGSIZE <= u < PageUp(oldsz) / PGSIZE then 0 else Flat(old(mem), root, ts, u)
      ensures Elems(free) == Elems(old(free)) +
                FrameSet(old(mem), root, ts, PageUp(newsz) / PGSIZE, PageUp(oldsz) / PGSIZE)
      ensures forall p :: p in mem && p !in ts && p !in free ==> mem[p] == old(mem)[p]
    {
      hide Tree, Chain, Flat, Pa;
      PageUpMonotone(newsz, oldsz);
      PageUpMonotone(oldsz, newsz);
      if newsz >= oldsz {
        return oldsz;
      }
      if PageUp(newsz) < PageUp(oldsz) {
        var npages := (PageUp(oldsz) - PageUp(newsz)) / PGSIZE;
        Uvmunmap(root, ts, PageUp(newsz), npages, true);
      }
      return newsz;
    }

    /** The way back from a growth that ran out of memory. */
    method Undo(root: nat, ghost ts': Tables, lo: nat, a: nat, ghost m0: Mem, ghost f0: seq<nat>, ghost ts: Tables,
                ghost w: Wanted)
      requires Owns(root, ts') && lo <= a <= NVPN
      requires Grown(m0, f0, ts, mem, free, root, ts', lo, a)
      requires AllMapped(mem, root, ts', lo, a, w) && forall u :: 0 <= u < |w| ==> w[u].0 >= 2
      modifies this
      ensures Owns(root, ts') && Exchanged(m0, f0, ts, mem, free, ts')
      ensures forall u :: 0 <= u < NVPN ==>
                Flat(mem, root, ts', u) == if lo <= u < a then 0 else Flat(old(mem), root, ts', u)
    {
      hide Tree, Chain, Flat, Pa, FrameSet, MkPte;
      forall u | lo <= u < a ensures Present(Flat(mem, root, ts', u)) && Flags(Flat(mem, root, ts', u)) != PTE_V {
        MappedLeaf(mem, root, ts', u, w);
      }
      PageUpMonotone(a * PGSIZE, lo * PGSIZE);
      PageUpMonotone(lo * PGSIZE, a * PGSIZE);
      var _ := Uvmdealloc(root, ts', a * PGSIZE, lo * PGSIZE);
      GrownUndone(m0, f0, ts, old(mem), old(free), mem, free, root, ts', lo, a);
    }

    /** uvmalloc's loop, from page `lo` to the last page below `newsz`. */
    method Grow(root: nat, ghost ts: Tables, lo: nat, newsz: nat, perm: nat, ghost w: Wanted)
      returns (ok: bool, ghost ts': Tables)
      requires Owns(root, ts) && lo <= PageUp(newsz) / PGSIZE <= NVPN && 2 <= perm < 1024
      requires w == Zeroed(PageUp(newsz) / PGSIZE, perm)
      requires forall u :: lo <= u < PageUp(newsz) / PGSIZE ==> !Present(Flat(mem, root, ts, u))
      modifies this
      ensures Owns(root, ts')
      ensures ok ==> Grown(old(mem), old(free), ts, mem, free, root, ts', lo, PageUp(newsz) / PGSIZE)
      ensures ok ==> AllMapped(mem, root, ts', lo, PageUp(newsz) / PGSIZE, w)
      ensures ok ==> SameOutside(old(mem), root, ts, mem, ts', lo, PageUp(newsz) / PGSIZE)
      ensures !ok ==> Exchanged(old(mem), old(free), ts, mem, free, ts') && SameMapping(old(mem), root, ts, mem, ts')
      ensures ok <==> |old(free)| >= Cost(ts, lo, PageUp(newsz) / PGSIZE)
    {
      hide Tree, Chain, Flat, Pa, MkPte, Exchanged, Placed, Grown, FrameSet, AllMapped, Zeroed, PageUp;
      hide Spent, Path, Lacking;
      SpentNothing(ts, free);
      var a := lo;
      ts' := ts;
      GrownNot(mem, free, root, ts, lo, w);
      PagesBelow(a, newsz);
      while a * PGSIZE < newsz
        invariant lo <= a <= PageUp(newsz) / PGSIZE && Owns(root, ts')
        invariant Grown(old(mem), old(free), ts, mem, free, root, ts', lo, a)
        invariant SameOutside(old(mem), root, ts, mem, ts', lo, a)
        invariant AllMapped(mem, root, ts', lo, a, w)
        invariant Spent(a - lo, Paths(lo, a), ts, ts', old(free), free)
      {
        PagesBelow(a, newsz);
        ghost var m, f, s := mem, free, ts';
        ok, ts' := PlaceOne(root, ts', a, FilledPage(0), perm);
        if !ok {
          CannotGrow(lo, a, PageUp(newsz) / PGSIZE, ts, s, old(free), f);
          GrownExchanged(old(mem), old(free), ts, m, f, s, mem, free, root, ts', lo, a, w);
          Undo(root, ts', lo, a, old(mem), old(free), ts, w);
          return false, ts';
        }
        GrownStep(old(mem), old(free), ts, m, f, s, mem, free, root, ts', lo, a, w);
        SpentTwice(a - lo, Paths(lo, a), 1, Path(a), ts, s, ts', old(free), f, free);
        a := a + 1;
      }
      PagesBelow(a, newsz);
      SpentEnough(a - lo, Paths(lo, a), ts, ts', old(free), free);
      return true, ts';
    }

    /** uvmalloc: grows the mapping by zeroed frames, or fails with the mapping and the set of
        pages in use for anything but tables as they were. */
    method Uvmalloc(root: nat, ghost ts: Tables, oldsz: nat, newsz: nat, xperm: nat)
      returns (sz: nat, ghost ts': Tables)
      requires Owns(root, ts) && oldsz <= MAXVA && newsz <= MAXVA && xperm in {0, 4, 8, 12}
      requires forall u :: PageUp(oldsz) / PGSIZE <= u < PageUp(newsz) / PGSIZE ==> !Present(Flat(mem, root, ts, u))
      modifies this
      ensures Owns(root, ts')
      ensures newsz < oldsz ==> sz == oldsz && ts' == ts && mem == old(mem) && free == old(free)
      ensures newsz >= oldsz ==> sz == newsz || sz == 0
      ensures newsz >= oldsz ==> PageUp(oldsz) / PGSIZE <= PageUp(newsz) / PGSIZE
      ensures newsz >= oldsz ==>
                (sz == newsz <==> |old(free)| >= Cost(ts, PageUp(oldsz) / PGSIZE, PageUp(newsz) / PGSIZE))
      ensures newsz >= oldsz && sz != 0 ==>
                var lo, hi := PageUp(oldsz) / PGSIZE, PageUp(newsz) / PGSIZE;
                && Grown(old(mem), old(free), ts, mem, free, root, ts', lo, hi)
                && AllMapped(mem, root, ts', lo, hi, Zeroed(hi, 18 + xperm))
                && SameOutside(old(mem), root, ts, mem, ts', lo, hi)
      ensures newsz >= oldsz && sz == 0 && newsz > 0 ==>
                Exchanged(old(mem), old(free), ts, mem, free, ts') && SameMapping(old(mem), root, ts, mem, ts')
    {
      hide Tree, Chain, Flat, Exchanged, Grown, AllMapped, Zeroed, SameOutside, SameMapping, PageUp, Paths, Lacking;
      if newsz < oldsz {
        return oldsz, ts;
      }
      PageUpMonotone(oldsz, newsz);
      NothingToGrow(ts, oldsz, newsz);
      PageUpMonotone(newsz, MAXVA);
      var ok;
      ok, ts' := Grow(root, ts, PageUp(oldsz) / PGSIZE, newsz, 18 + xperm, Zeroed(PageUp(newsz) / PGSIZE, 18 + xperm));
      return if ok then newsz else 0, ts';
    }

    /** The entry and the contents of page `u` of the tree being copied. */
    method ReadPage(from: nat, ghost fs: Tables, u: nat, ghost ts: Tables, ghost w: Wanted)
      returns (flags: nat, data: Page)
      requires Owns(from, fs) && u < |w| <= NVPN && Source(mem, free, from, fs, ts, w)
      modifies this
      ensures Valid() && mem == old(mem) && free == old(free)
      ensures flags == w[u].0 && data == w[u].1
    {
      hide Attached, EntryOk, Chain, Px;
      var t;
      ghost var fs';
      t, fs' := Walk(from, fs, u * PGSIZE, false);
      assert SourceOk(mem, free, from, fs, ts, w, u);
      var pte := mem[t][Px(0, u)];
      flags, data := Flags(pte), mem[Pa(pte)];
    }

    method UndoCopy(to: nat, ghost ts': Tables, a: nat, ghost m0: Mem, ghost f0: seq<nat>, ghost ts: Tables,
                    ghost w: Wanted,
                    ghost from: nat, ghost fs: Tables)
      requires Owns(to, ts') && a <= NVPN && Owns(from, fs) && fs.Keys !! ts.Keys + Elems(f0)
      requires Grown(m0, f0, ts, mem, free, to, ts', 0, a)
      requires AllMapped(mem, to, ts', 0, a, w) && forall u :: 0 <= u < |w| ==> w[u].0 >= 2
      modifies this
      ensures Owns(to, ts') && Exchanged(m0, f0, ts, mem, free, ts')
      ensures forall u :: 0 <= u < NVPN ==>
                Flat(mem, to, ts', u) == if 0 <= u < a then 0 else Flat(old(mem), to, ts', u)
      ensures Owns(from, fs) && SameOutside(old(mem), from, fs, mem, fs, 0, 0)
    {
      hide EntryOk, Attached, Chain, Flat, Pa, FrameSet, MkPte;
      forall u | 0 <= u < a ensures Present(Flat(mem, to, ts', u)) && Flags(Flat(mem, to, ts', u)) != PTE_V {
        MappedLeaf(mem, to, ts', u, w);
      }
      Uvmunmap(to, ts', 0, a, true);
      GrownUndone(m0, f0, ts, old(mem), old(free), mem, free, to, ts', 0, a);
      assert forall p :: p in fs ==> p !in Elems(free) + ts'.Keys;
      TreeKept(old(mem), mem, from, fs);
    }

    /** uvmcopy: copies the pages below `sz` of one tree, contents and permissions, into another;
        or fails with the second tree's mapping as it was. The first tree is not changed. */
    method Uvmcopy(from: nat, ghost fs: Tables, to: nat, ghost ts: Tables, sz: nat, ghost w: Wanted)
      returns (ok: bool, ghost ts': Tables)
      requires Owns(from, fs) && Owns(to, ts) && fs.Keys !! ts.Keys && sz <= MAXVA
      requires |w| == PageUp(sz) / PGSIZE <= NVPN
      requires Source(mem, free, from, fs, ts, w)
      requires forall u :: 0 <= u < |w| ==> !Present(Flat(mem, to, ts, u))
      modifies this
      ensures Owns(from, fs) && SameOutside(old(mem), from, fs, mem, fs, 0, 0)
      ensures Owns(to, ts')
      ensures ok ==> Grown(old(mem), old(free), ts, mem, free, to, ts', 0, |w|)
      ensures ok ==> AllMapped(mem, to, ts', 0, |w|, w)
      ensures ok ==> SameOutside(old(mem), to, ts, mem, ts', 0, |w|)
      ensures !ok ==> Exchanged(old(mem), old(free), ts, mem, free, ts') && SameMapping(old(mem), to, ts, mem, ts')
      ensures ok <==> |old(free)| >= Cost(ts, 0, |w|)
    {
      hide Tree, Chain, Flat, Pa, MkPte, Exchanged, Placed, Grown, FrameSet, AllMapped, PageUp, Source;
      hide Spent, Path, Lacking;
      SpentNothing(ts, free);
      var a := 0;
      ts' := ts;
      GrownNot(mem, free, to, ts, 0, w);
      OtherTree(old(mem), old(free), from, fs, ts, mem, free, to, ts', 0, w);
      SourceLeaves(mem, free, from, fs, ts, w);
      while a * PGSIZE < sz
        invariant 0 <= a <= |w| && Owns(to, ts') && Owns(from, fs)
        invariant Grown(old(mem), old(free), ts, mem, free, to, ts', 0, a)
        invariant SameOutside(old(mem), to, ts, mem, ts', 0, a)
        invariant SameOutside(old(mem), from, fs, mem, fs, 0, 0)
        invariant AllMapped(mem, to, ts', 0, a, w)
        invariant Source(mem, free, from, fs, ts', w)
        invariant Spent(a, Paths(0, a), ts, ts', old(free), free)
      {
        PagesBelow(a, sz);
        var flags, data := ReadPage(from, fs, a, ts', w);
        ghost var m, f, s := mem, free, ts';
        ok, ts' := PlaceOne(to, ts', a, data, flags);
        if !ok {
          CannotGrow(0, a, |w|, ts, s, old(free), f);
          GrownExchanged(old(mem), old(free), ts, m, f, s, mem, free, to, ts', 0, a, w);
          OtherTree(old(mem), old(free), from, fs, ts, mem, free, to, ts', a, w);
          UndoCopy(to, ts', a, old(mem), old(free), ts, w, from, fs);
          return false, ts';
        }
        GrownStep(old(mem), old(free), ts, m, f, s, mem, free, to, ts', 0, a, w);
        SpentTwice(a, Paths(0, a), 1, Path(a), ts, s, ts', old(free), f, free);
        a := a + 1;
        OtherTree(old(mem), old(free), from, fs, ts, mem, free, to, ts', a, w);
      }
      PagesBelow(a, sz);
      SpentEnough(a, Paths(0, a), ts, ts', old(free), free);
      return true, ts';
    }

    method ClearEntry(q: nat, i: nat)
      requires Valid() && q in mem && q !in free && i < ENTRIES
      modifies `mem
      ensures Valid() && mem == old(mem)[q := old(mem)[q][i := 0]]
    {
      mem := mem[q := mem[q][i := 0]];
      ChainUnrelated(old(mem), mem, freelist, free);
    }

    /** freewalk: frees every table page at and below `q`, each once. */
    method Freewalk(q: nat, ghost ts: Tables)
      requires Valid() && q in ts && Subtree(mem, ts, q) && ts.Keys <= mem.Keys
      requires Under(ts, ts[q]) !! Elems(free)
      modifies this
      ensures Valid() && mem.Keys == old(mem).Keys
      ensures Elems(free) == Elems(old(free)) + Under(ts, ts[q])
      ensures forall p :: p in mem && p !in Under(ts, ts[q]) ==> mem[p] == old(mem)[p]
      decreases Height(ts[q])
    {
      hide Chain, Under, Before, PointsToTable, Present, Pa, Distinct;
      ghost var n := ts[q];
      UnderAll(ts, q);
      NoneBefore(ts, n);
      hide Subtree;
      var i := 0;
      while i < ENTRIES
        invariant 0 <= i <= ENTRIES
        invariant Valid() && mem.Keys == old(mem).Keys
        invariant Elems(free) == Elems(old(free)) + Before(ts, n, i)
        invariant forall p :: p in mem && p != q && p !in Before(ts, n, i) ==> mem[p] == old(mem)[p]
        invariant forall k :: i <= k < ENTRIES ==> mem[q][k] == old(mem)[q][k]
      {
        var pte := mem[q][i];
        EntryFreeCase(old(mem), mem, ts, q, i);
        if Present(pte) && PointsToTable(pte) {
          Freewalk(Pa(pte), ts);
          ClearEntry(q, i);
        }
        i := i + 1;
      }
      Kfree(q);
      ElemsOfSum([q], free[1..]);
    }

    /** uvmfree: every frame mapped below `sz` and every table page goes back to the free list,
        each once; nothing else does. */
    method Uvmfree(root: nat, ghost ts: Tables, sz: nat)
      requires Owns(root, ts) && sz <= MAXVA
      requires forall u :: 0 <= u < NVPN ==>
                 if u < PageUp(sz) / PGSIZE
                 then Present(Flat(mem, root, ts, u)) && Flags(Flat(mem, root, ts, u)) != PTE_V
                 else !Present(Flat(mem, root, ts, u))
      requires Frames(mem, free, root, ts, 0, PageUp(sz) / PGSIZE)
      modifies this
      ensures Valid() && mem.Keys == old(mem).Keys
      ensures Elems(free) == Elems(old(free)) + FrameSet(old(mem), root, ts, 0, PageUp(sz) / PGSIZE) + ts.Keys
      ensures forall p :: p in mem && p !in free ==> mem[p] == old(mem)[p]
    {
      hide EntryOk, Attached, Chain, Flat, Pa, FrameSet, PageUp;
      PageUpMonotone(sz, MAXVA);
      NoFrames(mem, root, ts, 0);
      if sz > 0 {
        Uvmunmap(root, ts, 0, PageUp(sz) / PGSIZE, true);
      } else {
        PagesBelow(0, sz);
      }
      assert Elems(free) == Elems(old(free)) + FrameSet(old(mem), root, ts, 0, PageUp(sz) / PGSIZE);
      NoLeaves(mem, root, ts);
      Freewalk(root, ts);
      forall p | p in mem && p !in free ensures mem[p] == old(mem)[p] { assert p !in Elems(free); }
    }

    /** uvmcreate: an empty page table. */
    method Uvmcreate() returns (root: nat, ghost ts: Tables)
      requires Valid()
      modifies this
      ensures Valid()
      ensures root == 0 <==> old(free) == []
      ensures root == 0 ==> mem == old(mem) && free == old(free)
      ensures root != 0 ==>
                && ts == map[root := Root] && Owns(root, ts)
                && Exchanged(old(mem), old(free), map[], mem, free, ts)
                && forall u :: 0 <= u < NVPN ==> Flat(mem, root, ts, u) == 0
    {
      root := Kalloc();
      ts := map[];
      if root != 0 {
        TakeFirst(old(free), root);
        ghost var m := mem;
        mem := mem[root := FilledPage(0)];
        ChainUnrelated(m, mem, freelist, free);
        ts := map[root := Root];
        forall u | 0 <= u < NVPN ensures Flat(mem, root, ts, u) == 0 {
          NoPath(mem, root, ts, u, 2);
        }
      }
    }

    /** freerange: puts every whole page of a range on the free list. */
    method Freerange(start: nat, end: nat)
      requires Valid()
      requires forall p :: PageUp(start) <= p && p + PGSIZE <= end && p % PGSIZE == 0 ==> p in mem && p !in free
      modifies this
      ensures Valid() && mem.Keys == old(mem).Keys
      ensures forall p :: p in free <==>
                p in old(free) || (PageUp(start) <= p && p + PGSIZE <= end && p % PGSIZE == 0)
    {
      hide Chain;
      var p := PageUp(start);
      while p + PGSIZE <= end
        invariant p % PGSIZE == 0 && PageUp(start) <= p
        invariant Valid() && mem.Keys == old(mem).Keys
        invariant forall q :: q in free <==>
                  q in old(free) || (PageUp(start) <= q < p && q + PGSIZE <= end && q % PGSIZE == 0)
        decreases end - p
      {
        Kfree(p);
        p := p + PGSIZE;
      }
    }

    /** A page table that is created, filled from another by uvmcopy and freed again leaves the
        free pages as they were, whether or not memory ran out on the way, and the other page
        table with its mapping and its contents. */
    method CopyThenFree(from: nat, ghost fs: Tables, sz: nat, ghost w: Wanted)
      requires Owns(from, fs) && sz <= MAXVA && |w| == PageUp(sz) / PGSIZE <= NVPN
      requires Source(mem, free, from, fs, map[], w)
      modifies this
      ensures Elems(free) == Elems(old(free)) && mem.Keys == old(mem).Keys
      ensures Owns(from, fs) && SameOutside(old(mem), from, fs, mem, fs, 0, 0)
      ensures forall p :: p in mem && p !in free ==> mem[p] == old(mem)[p]
    {
      hide Tree, Chain, Flat, Pa, MkPte, PageUp, FrameSet, Source, AllMapped, Grown, SameMapping, Frames, Cost;
      var root;
      ghost var ts;
      root, ts := Uvmcreate();
      if root != 0 {
        SourceStill(old(mem), old(free), mem, free, from, fs, ts, w);
        SourceLeaves(mem, free, from, fs, ts, w);
        ghost var m, f := mem, free;
        var ok;
        ghost var ts';
        ok, ts' := Uvmcopy(from, fs, root, ts, sz, w);
        CopyToFree(m, f, root, ts, mem, free, ts', ok, |w|, w);
        PagesBelow(0, 0);
        ghost var copied := mem;
        Uvmfree(root, ts', if ok then sz else 0);
        KeptAside(old(mem), old(free), m, f, ts, copied, mem, free, from, fs);
      }
    }
  }

  ghost predicate FrameOk(mem: Mem, free: seq<nat>, root: nat, ts: Tables, u: nat)
    requires Tree(mem, root, ts)
  {
    var pa := Pa(Flat(mem, root, ts, u));
    pa in mem && pa !in free && pa !in ts
  }

  /** The frames mapped by pages `lo` to `hi`: in memory, not free, not tables, and distinct. */
  ghost predicate Frames(mem: Mem, free: seq<nat>, root: nat, ts: Tables, lo: nat, hi: nat)
    requires Tree(mem, root, ts)
  {
    && (forall u :: lo <= u < hi ==> FrameOk(mem, free, root, ts, u))
    && (forall u, w :: lo <= u < w < hi ==> Pa(Flat(mem, root, ts, u)) != Pa(Flat(mem, root, ts, w)))
  }

  ghost function FrameSet(mem: Mem, root: nat, ts: Tables, lo: nat, hi: nat): (r: set<nat>)
    requires Tree(mem, root, ts)
  {
    set u | lo <= u < hi :: Pa(Flat(mem, root, ts, u))
  }

  lemma PagesBelow(a: nat, sz: nat)
    ensures a * PGSIZE < sz <==> a < PageUp(sz) / PGSIZE
  {
  }

  lemma NothingToGrow(ts: Tables, oldsz: nat, newsz: nat)
    ensures newsz == 0 && oldsz == 0 ==> Cost(ts, PageUp(oldsz) / PGSIZE, PageUp(newsz) / PGSIZE) == 0
  {
    LackingNone(ts);
  }

  lemma PageUpMonotone(a: nat, b: nat)
    ensures a <= b ==> PageUp(a) <= PageUp(b)
    ensures PageUp(a) % PGSIZE == 0 && a <= PageUp(a) < a + PGSIZE
    ensures PageUp(a) <= b <==> PageUp(a) / PGSIZE <= b / PGSIZE
    ensures PageUp(a / PGSIZE * PGSIZE) == a / PGSIZE * PGSIZE
  {
  }

  /** Permissions and contents, page by page. */
  type Wanted = w: seq<(nat, Page)> | forall u :: 0 <= u < |w| ==> w[u].0 < 1024

  ghost predicate Mapped(mem: Mem, root: nat, ts: Tables, u: nat, w: Wanted)
    requires Tree(mem, root, ts)
  {
    var pte := Flat(mem, root, ts, u);
    u < |w| && pte == MkPte(Pa(pte), w[u].0) && Pa(pte) in mem && mem[Pa(pte)] == w[u].1
  }

  /** Pages `lo` to `hi` are mapped as wanted. */
  ghost predicate AllMapped(mem: Mem, root: nat, ts: Tables, lo: nat, hi: nat, w: Wanted)
    requires Tree(mem, root, ts)
  {
    forall u :: lo <= u < hi ==> Mapped(mem, root, ts, u, w)
  }

  /** What is mapped readable, writable or executable is a leaf. */
  lemma MappedLeaf(mem: Mem, root: nat, ts: Tables, u: nat, w: Wanted)
    requires Tree(mem, root, ts) && Mapped(mem, root, ts, u, w) && w[u].0 >= 2
    ensures Present(Flat(mem, root, ts, u)) && Flags(Flat(mem, root, ts, u)) != PTE_V
  {
    hide Tree, Flat;
    PteFields(Pa(Flat(mem, root, ts, u)), w[u].0);
  }

  ghost predicate SameOutside(m: Mem, root: nat, ts: Tables, m': Mem, ts': Tables, lo: nat, hi: nat)
    requires Tree(m, root, ts) && Tree(m', root, ts')
  {
    forall u :: 0 <= u < NVPN && !(lo <= u < hi) ==> Flat(m', root, ts', u) == Flat(m, root, ts, u)
  }

  /** The same pages are mapped, to the same entries. */
  ghost predicate SameMapping(m: Mem, root: nat, ts: Tables, m': Mem, ts': Tables)
    requires Tree(m, root, ts) && Tree(m', root, ts')
  {
    forall u :: 0 <= u < NVPN && (Present(Flat(m, root, ts, u)) || Present(Flat(m', root, ts', u)))
      ==> Flat(m', root, ts', u) == Flat(m, root, ts, u)
  }

  /** Pages moved from the free list to the tables of a tree and to the frames mapped at its
      pages `lo` to `hi`; none was lost or used twice. */
  ghost predicate Grown(m: Mem, f: seq<nat>, ts: Tables, m': Mem, f': seq<nat>, root: nat, ts': Tables, lo: nat,
                        hi: nat)
    requires Tree(m', root, ts')
  {
    && m'.Keys == m.Keys
    && Frames(m', f', root, ts', lo, hi)
    && Elems(f') + ts'.Keys + FrameSet(m', root, ts', lo, hi) == Elems(f) + ts.Keys
    && forall p :: p in m && p !in f && p !in ts ==> m'[p] == m[p]
  }

  /** uvmalloc's frames: zeroed, with one set of permissions. */
  ghost function Zeroed(hi: nat, perm: nat): (w: Wanted)
    requires perm < 1024
    ensures |w| == hi && forall u :: 0 <= u < hi ==> w[u] == (perm, FilledPage(0))
  {
    seq(hi, _ => (perm, FilledPage(0)))
  }

  lemma GrownNot(m: Mem, f: seq<nat>, root: nat, ts: Tables, lo: nat, w: Wanted)
    requires Tree(m, root, ts)
    ensures Grown(m, f, ts, m, f, root, ts, lo, lo) && AllMapped(m, root, ts, lo, lo, w)
  {
    NoFrames(m, root, ts, lo);
  }

  lemma SameFrames(m: Mem, s: Tables, m': Mem, root: nat, ts': Tables, lo: nat, a: nat)
    requires Tree(m, root, s) && Tree(m', root, ts') && a <= NVPN
    requires forall u :: lo <= u < a ==> Flat(m', root, ts', u) == Flat(m, root, s, u)
    ensures FrameSet(m', root, ts', lo, a) == FrameSet(m, root, s, lo, a)
  {
  }

  lemma GrownExchanged(m0: Mem, f0: seq<nat>, ts: Tables, m: Mem, f: seq<nat>, s: Tables,
                       m': Mem, f': seq<nat>, root: nat, ts': Tables, lo: nat, a: nat, w: Wanted)
    requires Tree(m, root, s) && Tree(m', root, ts') && lo <= a <= NVPN
    requires Grown(m0, f0, ts, m, f, root, s, lo, a) && Exchanged(m, f, s, m', f', ts')
    requires forall u :: 0 <= u < NVPN ==> Flat(m', root, ts', u) == Flat(m, root, s, u)
    requires AllMapped(m, root, s, lo, a, w)
    ensures Grown(m0, f0, ts, m', f', root, ts', lo, a)
    ensures AllMapped(m', root, ts', lo, a, w)
  {
    hide Tree, Flat;
    SameFrames(m, s, m', root, ts', lo, a);
    forall u | lo <= u < a ensures FrameOk(m', f', root, ts', u) {
      assert FrameOk(m, f, root, s, u);
      assert Pa(Flat(m, root, s, u)) !in Elems(f) + s.Keys;
      assert Pa(Flat(m, root, s, u)) !in Elems(f') + ts'.Keys;
    }
    forall u | lo <= u < a ensures Mapped(m', root, ts', u, w) {
      assert Mapped(m, root, s, u, w) && FrameOk(m, f, root, s, u);
    }
    forall p | p in m0 && p !in f0 && p !in ts ensures m'[p] == m0[p] {
      assert p !in Elems(f0) + ts.Keys;
      assert p !in Elems(f) && p !in s.Keys;
    }
    assert m'.Keys == m0.Keys;
    assert Elems(f') + ts'.Keys + FrameSet(m', root, ts', lo, a) == Elems(f0) + ts.Keys;
  }

  lemma GrownStep(m0: Mem, f0: seq<nat>, ts: Tables, m: Mem, f: seq<nat>, s: Tables,
                  m': Mem, f': seq<nat>, root: nat, ts': Tables, lo: nat, a: nat, w: Wanted)
    requires Tree(m, root, s) && Tree(m', root, ts') && lo <= a < NVPN
    requires Grown(m0, f0, ts, m, f, root, s, lo, a)
    requires Placed(m, f, s, m', f', ts', Pa(Flat(m', root, ts', a)))
    requires forall u :: 0 <= u < NVPN && u != a ==> Flat(m', root, ts', u) == Flat(m, root, s, u)
    requires AllMapped(m, root, s, lo, a, w) && Mapped(m', root, ts', a, w)
    ensures Grown(m0, f0, ts, m', f', root, ts', lo, a + 1)
    ensures AllMapped(m', root, ts', lo, a + 1, w)
  {
    hide Tree, Flat;
    var z := Pa(Flat(m', root, ts', a));
    SameFrames(m, s, m', root, ts', lo, a);
    FrameSetOneMore(m', root, ts', lo, a);
    forall u | lo <= u < a ensures FrameOk(m', f', root, ts', u) && Pa(Flat(m', root, ts', u)) != z {
      assert FrameOk(m, f, root, s, u);
      assert Pa(Flat(m, root, s, u)) !in Elems(f) + s.Keys;
      assert Pa(Flat(m, root, s, u)) !in Elems(f') + ts'.Keys;
    }
    assert FrameOk(m', f', root, ts', a);
    forall u | lo <= u < a ensures Mapped(m', root, ts', u, w) {
      assert Mapped(m, root, s, u, w) && FrameOk(m, f, root, s, u);
    }
    forall p | p in m0 && p !in f0 && p !in ts ensures m'[p] == m0[p] {
      assert p !in Elems(f0) + ts.Keys;
      assert p !in Elems(f) && p !in s.Keys;
    }
  }

  ghost predicate SourceOk(mem: Mem, free: seq<nat>, from: nat, fs: Tables, ts: Tables, w: Wanted, u: nat)
    requires Tree(mem, from, fs) && u < |w|
  {
    var pte := Flat(mem, from, fs, u);
    && Present(pte) && Flags(pte) != PTE_V && Flags(pte) == w[u].0
    && Pa(pte) in mem && mem[Pa(pte)] == w[u].1 && Pa(pte) !in free && Pa(pte) !in ts
  }

  /** The pages of `from` that a copy is to have, in frames that are neither free nor tables of
      the copy. */
  ghost predicate Source(mem: Mem, free: seq<nat>, from: nat, fs: Tables, ts: Tables, w: Wanted)
    requires Tree(mem, from, fs)
  {
    forall u :: 0 <= u < |w| ==> SourceOk(mem, free, from, fs, ts, w, u)
  }

  lemma SourceLeaves(mem: Mem, free: seq<nat>, from: nat, fs: Tables, ts: Tables, w: Wanted)
    requires Tree(mem, from, fs) && Source(mem, free, from, fs, ts, w)
    ensures forall u :: 0 <= u < |w| ==> w[u].0 >= 2
  {
    hide Tree, Flat;
    forall u | 0 <= u < |w| ensures w[u].0 >= 2 {
      assert SourceOk(mem, free, from, fs, ts, w, u);
      var pte := Flat(mem, from, fs, u);
      assert Flags(pte) % 2 == 1;
    }
  }

  lemma TreeKept(m: Mem, m': Mem, from: nat, fs: Tables)
    requires Tree(m, from, fs) && m'.Keys == m.Keys && forall p :: p in fs ==> m'[p] == m[p]
    ensures Tree(m', from, fs) && SameOutside(m, from, fs, m', fs, 0, 0)
  {
    Unrelated(m, m', from, fs);
  }

  /** Growing one tree leaves another, and the frames it maps, alone. */
  lemma OtherTree(m0: Mem, f0: seq<nat>, from: nat, fs: Tables, ts: Tables,
                  m: Mem, f: seq<nat>, to: nat, ts': Tables, a: nat, w: Wanted)
    requires Tree(m0, from, fs) && fs.Keys !! ts.Keys + Elems(f0) && Source(m0, f0, from, fs, ts, w) && |w| <= NVPN
    requires Tree(m, to, ts') && Grown(m0, f0, ts, m, f, to, ts', 0, a)
    ensures Tree(m, from, fs) && SameOutside(m0, from, fs, m, fs, 0, 0)
    ensures fs.Keys !! Elems(f) && fs.Keys !! ts'.Keys
    ensures Source(m, f, from, fs, ts', w)
  {
    hide Flat, Frames, FrameSet;
    forall p | p in fs ensures m[p] == m0[p] {
      assert p !in Elems(f0) + ts.Keys;
    }
    TreeKept(m0, m, from, fs);
    hide Tree;
    forall u | 0 <= u < |w| ensures SourceOk(m, f, from, fs, ts', w, u) {
      assert SourceOk(m0, f0, from, fs, ts, w, u);
      assert Pa(Flat(m0, from, fs, u)) !in Elems(f0) + ts.Keys;
      assert Pa(Flat(m0, from, fs, u)) !in Elems(f) && Pa(Flat(m0, from, fs, u)) !in ts'.Keys;
    }
  }

  function Height(n: Node): nat {
    match n case Root => 2 case Mid(_) => 1 case Low(_, _) => 0
  }

  /** Node `m` lies strictly below node `n`. */
  predicate Below(m: Node, n: Node) {
    if n.Root? then !m.Root? else n.Mid? && m.Low? && m.i2 == n.i2
  }

  /** The entry of `n` that leads to `m`. */
  function Via(m: Node, n: Node): nat
    requires Below(m, n)
  {
    if n.Root? then m.i2 else m.i1
  }

  ghost function Under(ts: Tables, n: Node): (r: set<nat>) {
    set p | p in ts && (ts[p] == n || Below(ts[p], n))
  }

  /** The pages below `n` that its first `k` entries lead to. */
  ghost function Before(ts: Tables, n: Node, k: nat): (r: set<nat>) {
    set p | p in ts && Below(ts[p], n) && Via(ts[p], n) < k
  }

  /** The tables at and below `q` form a tree with no leaf entries. */
  ghost predicate Subtree(mem: Mem, ts: Tables, q: nat)
    requires q in ts
    decreases Height(ts[q])
  {
    && q in mem
    && (forall p :: p in ts && ts[p] == ts[q] ==> p == q)
    && (forall p :: p in ts && Below(ts[p], ts[q]) ==> Via(ts[p], ts[q]) < ENTRIES)
    && (forall i :: 0 <= i < ENTRIES ==> EntryFree(mem, ts, q, i))
  }

  ghost predicate EntryFree(mem: Mem, ts: Tables, q: nat, i: nat)
    requires q in ts && q in mem && i < ENTRIES
    decreases Height(ts[q]), 0
  {
    if Present(mem[q][i]) then
      && PointsToTable(mem[q][i]) && !ts[q].Low?
      && Pa(mem[q][i]) in ts && ts[Pa(mem[q][i])] == Child(ts[q], i)
      && Subtree(mem, ts, Pa(mem[q][i]))
    else forall p :: p in ts && Below(ts[p], ts[q]) ==> Via(ts[p], ts[q]) != i
  }

  lemma {:induction false} SubtreeUnrelated(mem: Mem, mem': Mem, ts: Tables, q: nat)
    requires q in ts && Subtree(mem, ts, q) && mem'.Keys == mem.Keys
    requires forall p :: p in Under(ts, ts[q]) ==> p in mem && mem'[p] == mem[p]
    ensures Subtree(mem', ts, q)
    decreases Height(ts[q])
  {
    assert q in Under(ts, ts[q]);
    forall i | 0 <= i < ENTRIES ensures EntryFree(mem', ts, q, i) {
      assert EntryFree(mem, ts, q, i);
      if Present(mem[q][i]) { SubtreeUnrelated(mem, mem', ts, Pa(mem[q][i])); }
    }
  }

  /** What freewalk's loop finds at entry `i`, the entries before it having been dealt with. */
  lemma EntryFreeCase(mem: Mem, mem': Mem, ts: Tables, q: nat, i: nat)
    requires q in ts && Subtree(mem, ts, q) && i < ENTRIES && mem'.Keys == mem.Keys && ts.Keys <= mem.Keys
    requires mem'[q][i] == mem[q][i]
    requires forall p :: p in mem && p != q && p !in Before(ts, ts[q], i) ==> mem'[p] == mem[p]
    ensures Present(mem[q][i]) ==>
              && PointsToTable(mem[q][i]) && !ts[q].Low?
              && Pa(mem[q][i]) in ts && ts[Pa(mem[q][i])] == Child(ts[q], i)
              && Subtree(mem', ts, Pa(mem[q][i]))
              && q !in Under(ts, Child(ts[q], i))
              && Before(ts, ts[q], i + 1) == Before(ts, ts[q], i) + Under(ts, Child(ts[q], i))
              && Before(ts, ts[q], i) !! Under(ts, Child(ts[q], i))
              && Under(ts, Child(ts[q], i)) <= Under(ts, ts[q])
    ensures !Present(mem[q][i]) ==> Before(ts, ts[q], i + 1) == Before(ts, ts[q], i)
    ensures q !in Before(ts, ts[q], i + 1) && Before(ts, ts[q], i + 1) <= Under(ts, ts[q])
  {
    assert EntryFree(mem, ts, q, i);
    if Present(mem[q][i]) {
      BeforeNext(ts, ts[q], i);
      SubtreeUnrelated(mem, mem', ts, Pa(mem[q][i]));
    }
  }

  lemma NoneBefore(ts: Tables, n: Node)
    ensures Before(ts, n, 0) == {}
  {
  }

  /** A tree that maps nothing has no leaf entries, and freewalk from its root covers it. */
  lemma NoLeaves(mem: Mem, root: nat, ts: Tables)
    requires Tree(mem, root, ts) && forall u :: 0 <= u < NVPN ==> !Present(Flat(mem, root, ts, u))
    ensures Subtree(mem, ts, root) && Under(ts, Root) == ts.Keys
  {
    assert Attached(mem, root, ts, root);
    forall p | p in ts
      ensures (ts[p].Root? ==> p == root) && (ts[p].Mid? ==> Subtree(mem, ts, p)) &&
                (!ts[p].Root? ==> ts[p].i2 < ENTRIES)
    {
      assert Attached(mem, root, ts, p);
      if ts[p].Mid? { NoLeavesMid(mem, root, ts, p); }
    }
    forall i | 0 <= i < ENTRIES ensures EntryFree(mem, ts, root, i) {
      assert EntryOk(mem, ts, root, i);
      FlagsOfTable(mem[root][i]);
      forall p | p in ts && !ts[p].Root? && !Present(mem[root][i]) ensures ts[p].i2 != i {
        assert Attached(mem, root, ts, p);
      }
    }
  }

  lemma NoLeavesMid(mem: Mem, root: nat, ts: Tables, q: nat)
    requires Tree(mem, root, ts) && forall u :: 0 <= u < NVPN ==> !Present(Flat(mem, root, ts, u))
    requires q in ts && ts[q].Mid?
    ensures Subtree(mem, ts, q)
  {
    assert Attached(mem, root, ts, q);
    forall p | p in ts
      ensures (ts[p] == ts[q] ==> p == q) && (ts[p].Low? ==> Subtree(mem, ts, p) && ts[p].i1 < ENTRIES)
    {
      assert Attached(mem, root, ts, p);
      if ts[p].Low? { NoLeavesLow(mem, root, ts, p); }
    }
    forall i | 0 <= i < ENTRIES ensures EntryFree(mem, ts, q, i) {
      assert EntryOk(mem, ts, q, i);
      FlagsOfTable(mem[q][i]);
      forall p | p in ts && ts[p].Low? && ts[p].i2 == ts[q].i2 && !Present(mem[q][i]) ensures ts[p].i1 != i {
        assert Attached(mem, root, ts, p);
      }
    }
  }

  lemma NoLeavesLow(mem: Mem, root: nat, ts: Tables, q: nat)
    requires Tree(mem, root, ts) && forall u :: 0 <= u < NVPN ==> !Present(Flat(mem, root, ts, u))
    requires q in ts && ts[q].Low?
    ensures Subtree(mem, ts, q)
  {
    assert Attached(mem, root, ts, q);
    forall p | p in ts && ts[p] == ts[q] ensures p == q { assert Attached(mem, root, ts, p); }
    forall i | 0 <= i < ENTRIES ensures EntryFree(mem, ts, q, i) {
      var u := PageAt(ts[q].i2, ts[q].i1, i);
      var m := TableFor(mem, root, ts, u, 1);
      assert TableFor(mem, root, ts, u, 2) == root;
      assert m == Pa(mem[root][ts[q].i2]);
      assert TableFor(mem, root, ts, u, 0) == q;
      assert mem[q][i] == Flat(mem, root, ts, u);
    }
  }

  /** The page with the given three indices. */
  function PageAt(i2: nat, i1: nat, i0: nat): (u: nat)
    requires i2 < ENTRIES / 2 && i1 < ENTRIES && i0 < ENTRIES
    ensures u < NVPN && Px(2, u) == i2 && Px(1, u) == i1 && Px(0, u) == i0
  {
    Divided(512, i2 * 512 + i1, i0);
    Divided(512, i2, i1);
    Divided(512, 0, i2);
    Divided(0x4_0000, i2, i1 * 512 + i0);
    i2 * 0x4_0000 + i1 * 512 + i0
  }

  lemma FlagsOfTable(pte: nat)
    ensures Flags(pte) == PTE_V ==> PointsToTable(pte)
  {
    assert pte == 1024 * (pte / 1024) + pte % 1024;
  }

  lemma SourceStill(m0: Mem, f0: seq<nat>, m: Mem, f: seq<nat>, from: nat, fs: Tables, ts: Tables, w: Wanted)
    requires Tree(m0, from, fs) && fs.Keys !! Elems(f0) && Source(m0, f0, from, fs, map[], w) && |w| <= NVPN
    requires Exchanged(m0, f0, map[], m, f, ts)
    ensures Tree(m, from, fs) && fs.Keys !! Elems(f) + ts.Keys && Source(m, f, from, fs, ts, w)
    ensures SameOutside(m0, from, fs, m, fs, 0, 0)
  {
    hide Flat;
    TreeKept(m0, m, from, fs);
    hide Tree;
    forall u | 0 <= u < |w| ensures SourceOk(m, f, from, fs, ts, w, u) {
      assert SourceOk(m0, f0, from, fs, map[], w, u);
      assert Pa(Flat(m0, from, fs, u)) !in Elems(f0);
      assert Pa(Flat(m0, from, fs, u)) !in Elems(f) + ts.Keys;
    }
  }

  /** What uvmcopy leaves in an empty page table is what uvmfree asks for. */
  lemma CopyToFree(m: Mem, f: seq<nat>, root: nat, ts: Tables, m': Mem, f': seq<nat>, ts': Tables, ok: bool, n: nat,
                   w: Wanted)
    requires Tree(m, root, ts) && Tree(m', root, ts') && n == |w| <= NVPN
    requires forall u :: 0 <= u < NVPN ==> Flat(m, root, ts, u) == 0
    requires forall u :: 0 <= u < |w| ==> w[u].0 >= 2
    requires ok ==> Grown(m, f, ts, m', f', root, ts', 0, n)
    requires ok ==> AllMapped(m', root, ts', 0, n, w) && SameOutside(m, root, ts, m', ts', 0, n)
    requires !ok ==> Exchanged(m, f, ts, m', f', ts') && SameMapping(m, root, ts, m', ts')
    ensures forall u :: 0 <= u < NVPN ==>
              if ok && u < n then Present(Flat(m', root, ts', u)) && Flags(Flat(m', root, ts', u)) != PTE_V
              else !Present(Flat(m', root, ts', u))
    ensures Frames(m', f', root, ts', 0, if ok then n else 0)
    ensures Elems(f') + FrameSet(m', root, ts', 0, if ok then n else 0) + ts'.Keys == Elems(f) + ts.Keys
    ensures m'.Keys == m.Keys && forall p :: p in m && p !in f && p !in ts ==> m'[p] == m[p]
  {
    hide Tree, Flat, MkPte;
    NoFrames(m', root, ts', 0);
    forall u | 0 <= u < NVPN && ok && u < n
      ensures Present(Flat(m', root, ts', u)) && Flags(Flat(m', root, ts', u)) != PTE_V
    {
      MappedLeaf(m', root, ts', u, w);
    }
  }

  lemma KeptAside(m0: Mem, f0: seq<nat>, m1: Mem, f1: seq<nat>, ts: Tables, m2: Mem, m3: Mem, f3: seq<nat>,
                  from: nat, fs: Tables)
    requires Tree(m0, from, fs) && fs.Keys !! Elems(f0) && Exchanged(m0, f0, map[], m1, f1, ts)
    requires m2.Keys == m1.Keys && forall p :: p in m1 && p !in f1 && p !in ts ==> m2[p] == m1[p]
    requires m3.Keys == m2.Keys && forall p :: p in m3 && p !in f3 ==> m3[p] == m2[p]
    requires Elems(f3) == Elems(f0)
    ensures forall p :: p in m3 && p !in f3 ==> m3[p] == m0[p]
    ensures Tree(m3, from, fs) && SameOutside(m0, from, fs, m3, fs, 0, 0)
  {
    forall p | p in m3 && p !in f3 ensures m3[p] == m0[p] {
      assert p !in Elems(f3) && p !in Elems(f1) + ts.Keys;
    }
    forall p | p in fs ensures m3[p] == m0[p] { assert p !in Elems(f3); }
    TreeKept(m0, m3, from, fs);
  }

  lemma BeforeNext(ts: Tables, n: Node, i: nat)
    requires !n.Low?
    ensures Before(ts, n, i + 1) == Before(ts, n, i) + Under(ts, Child(n, i))
    ensures Before(ts, n, i) !! Under(ts, Child(n, i))
  {
  }

  lemma UnderAll(ts: Tables, q: nat)
    requires q in ts && (forall p :: p in ts && ts[p] == ts[q] ==> p == q)
    requires forall p :: p in ts && Below(ts[p], ts[q]) ==> Via(ts[p], ts[q]) < ENTRIES
    ensures Under(ts, ts[q]) == Before(ts, ts[q], ENTRIES) + {q} && q !in Before(ts, ts[q], ENTRIES)
  {
  }

  lemma GrownUndone(m0: Mem, f0: seq<nat>, ts: Tables, m: Mem, f: seq<nat>,
                    m': Mem, f': seq<nat>, root: nat, ts': Tables, lo: nat, a: nat)
    requires Tree(m, root, ts') && Grown(m0, f0, ts, m, f, root, ts', lo, a)
    requires m'.Keys == m.Keys && Elems(f') == Elems(f) + FrameSet(m, root, ts', lo, a)
    requires forall p :: p in m' && p !in ts' && p !in f' ==> m'[p] == m[p]
    ensures Exchanged(m0, f0, ts, m', f', ts')
  {
    hide Tree, Flat;
    forall p | p in m0 && p !in f0 && p !in ts ensures m'[p] == m0[p] {
      assert p !in Elems(f0) + ts.Keys;
      assert p !in Elems(f') && p !in ts'.Keys;
    }
  }

  lemma FrameSetOneMore(mem: Mem, root: nat, ts: Tables, lo: nat, a: nat)
    requires Tree(mem, root, ts) && lo <= a
    ensures FrameSet(mem, root, ts, lo, a + 1) == FrameSet(mem, root, ts, lo, a) + {Pa(Flat(mem, root, ts, a))}
  {
  }

  lemma ElemsOfSum(a: seq<nat>, b: seq<nat>)
    ensures Elems(a + b) == Elems(a) + Elems(b)
  {
  }

  lemma NoFrames(mem: Mem, root: nat, ts: Tables, lo: nat)
    requires Tree(mem, root, ts)
    ensures FrameSet(mem, root, ts, lo, lo) == {}
  {
  }

  lemma FrameSetGrows(mem: Mem, free: seq<nat>, root: nat, ts: Tables, lo: nat, hi: nat, a: nat)
    requires Tree(mem, root, ts) && lo <= a < hi && Frames(mem, free, root, ts, lo, hi)
    ensures FrameSet(mem, root, ts, lo, a + 1) == FrameSet(mem, root, ts, lo, a) + {Pa(Flat(mem, root, ts, a))}
    ensures Pa(Flat(mem, root, ts, a)) !in FrameSet(mem, root, ts, lo, a) && FrameOk(mem, free, root, ts, a)
  {
  }

  lemma ExchangedNot(m: Mem, f: seq<nat>, ts: Tables)
    ensures Exchanged(m, f, ts, m, f, ts)
  {
  }

  lemma ExchangedAgain(m: Mem, f: seq<nat>, ts: Tables, m': Mem, f': seq<nat>, ts': Tables,
                       m'': Mem, f'': seq<nat>, ts'': Tables)
    requires Exchanged(m, f, ts, m', f', ts') && Exchanged(m', f', ts', m'', f'', ts'')
    ensures Exchanged(m, f, ts, m'', f'', ts'')
  {
    assert forall p :: p in f' || p in ts' <==> p in Elems(f') + ts'.Keys;
    assert forall p :: p in f || p in ts <==> p in Elems(f) + ts.Keys;
  }

  lemma TakenThenExchanged(m: Mem, f: seq<nat>, ts: Tables, m': Mem, f': seq<nat>,
                           m'': Mem, f'': seq<nat>, ts'': Tables, z: nat)
    requires Taken(m, f, m', f', z) && z !in ts && Exchanged(m', f', ts, m'', f'', ts'')
    ensures Placed(m, f, ts, m'', f'', ts'', z) && m''[z] == m'[z]
  {
    assert z in Elems(f) && z !in Elems(f') + ts.Keys;
    assert forall p :: p in f ==> p in Elems(f') + {z};
    assert forall p :: p in f' ==> p in Elems(f);
  }

  lemma GivenBack(m: Mem, f: seq<nat>, ts: Tables, m': Mem, f': seq<nat>, ts': Tables, m'': Mem, f'': seq<nat>, z: nat)
    requires Placed(m, f, ts, m', f', ts', z)
    requires m''.Keys == m'.Keys && f'' == [z] + f' && forall p :: p in m' && p != z ==> m''[p] == m'[p]
    ensures Exchanged(m, f, ts, m'', f'', ts')
  {
    ElemsOfSum([z], f');
  }

  lemma NoPath(mem: Mem, root: nat, ts: Tables, v: nat, level: nat)
    requires Tree(mem, root, ts) && 1 <= level <= 2
    requires TableFor(mem, root, ts, v, level) != 0 && !Present(mem[TableFor(mem, root, ts, v, level)][Px(level, v)])
    ensures TableFor(mem, root, ts, v, 0) == 0
  {
    assert TableFor(mem, root, ts, v, level - 1) == 0;
  }

  lemma TakeFirst(l: seq<nat>, z: nat)
    requires l != [] && l[0] == z && Distinct(l)
    ensures Elems(l[1..]) == Elems(l) - {z} && z in Elems(l)
  {
    assert l == [l[0]] + l[1..];
  }
}
