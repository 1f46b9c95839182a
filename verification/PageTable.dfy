/** Sv39 page tables in physical memory (kernel/vm.c, kernel/riscv.h): a three-level radix tree
    of table pages, and the flat map from virtual page numbers to entries that it stands for.

    A physical page is 512 64-bit words; an address is a byte address; bit fields of an entry are
    written as arithmetic on its value. */
module PageTable {
  import opened Basics
  import opened Bits

  const PGSIZE := 4096
  const ENTRIES := 512
  const MAXVA := 0x40_0000_0000
  /** Virtual pages below MAXVA. */
  const NVPN := MAXVA / PGSIZE
  const PTE_V := 1

  type Page = p: seq<nat> | |p| == ENTRIES witness seq(ENTRIES, _ => 0)
  type Mem = map<nat, Page>

  function FilledPage(w: nat): (p: Page)
    ensures forall i :: 0 <= i < ENTRIES ==> p[i] == w
  {
    seq(ENTRIES, _ => w)
  }

  function PageDown(a: nat): nat { a / PGSIZE * PGSIZE }
  function PageUp(a: nat): nat { PageDown(a + PGSIZE - 1) }

  // Entries

  predicate Present(pte: nat) { pte % 2 == 1 }
  function Pa(pte: nat): nat { pte / 1024 * PGSIZE }
  function Flags(pte: nat): nat { pte % 1024 }
  /** None of PTE_R, PTE_W and PTE_X. */
  predicate PointsToTable(pte: nat) { pte / 2 % 8 == 0 }

  /** `PA2PTE(pa) | perm | PTE_V` */
  function MkPte(pa: nat, perm: nat): (pte: nat)
    requires perm < 1024
  {
    pa / PGSIZE * 1024 + (if perm % 2 == 0 then perm + PTE_V else perm)
  }

  lemma PteFields(pa: nat, perm: nat)
    requires perm < 1024 && pa % PGSIZE == 0
    ensures var pte := MkPte(pa, perm);
            && Present(pte) && Pa(pte) == pa
            && Flags(pte) == (if perm % 2 == 0 then perm + PTE_V else perm)
            && pte / 1024 == pa / PGSIZE && pte % 1024 / 2 == perm / 2 && pte % 2 == 1
            && (PointsToTable(pte) <==> perm / 2 % 8 == 0)
  {
    var k, f := pa / PGSIZE, if perm % 2 == 0 then perm + PTE_V else perm;
    assert k * PGSIZE == pa;
    PteParts(k, f);
    assert f / 2 == perm / 2;
  }

  lemma PteParts(k: nat, f: nat)
    requires f < 1024 && f % 2 == 1
    ensures (k * 1024 + f) / 1024 == k && (k * 1024 + f) % 1024 == f && (k * 1024 + f) % 2 == 1
    ensures (k * 1024 + f) / 2 % 8 == f / 2 % 8
  {
    var g := f / 2;
    assert f == 2 * g + 1;
    assert (k * 1024 + f) / 2 == 8 * (64 * k) + g;
    Octal(64 * k, g);
  }

  /** Where the bits of an address and of its permissions are in an entry, as PA2PTE, PTE2PA and
      PTE_FLAGS shift and mask them. */
  lemma PteBits(pa: nat, perm: nat, pte: nat, k: nat)
    requires perm < 1024
    ensures Bit(MkPte(pa, perm), k) == (k == 0 || if k < 10 then Bit(perm, k) else Bit(pa, k + 2))
    ensures Bit(Pa(pte), k) == (k >= 12 && Bit(pte, k - 2)) && Bit(Flags(pte), k) == (k < 10 && Bit(pte, k))
    ensures Present(pte) == Bit(pte, 0) && PointsToTable(pte) == !(Bit(pte, 1) || Bit(pte, 2) || Bit(pte, 3))
  {
    hide Bit, Mask;
    Masks();
    var f := if perm % 2 == 0 then perm + PTE_V else perm;
    BitJoined(pa / PGSIZE, f, 10, k);
    BitJoined(pa / PGSIZE, pa % PGSIZE, 12, k + 2);
    FlagBit(f, perm, k);
    BitJoined(pte / 1024, 0, 12, k);
    BitJoined(pte / 1024, pte % 1024, 10, k);
    if k >= 10 { HighBits(pte % 1024, 10, k); }
    if k >= 12 { BitJoined(pte / 1024, pte % 1024, 10, k - 2); } else { NoBits(k); }
    LowBits(pte);
  }

  lemma FlagBit(f: nat, perm: nat, k: nat)
    requires f == if perm % 2 == 0 then perm + PTE_V else perm
    ensures Bit(f, k) == (k == 0 || Bit(perm, k))
  {
    assert f % 2 == 1 && f / 2 == perm / 2;
  }

  lemma LowBits(x: nat)
    ensures Bit(x, 0) == (x % 2 == 1)
    ensures x / 2 % 8 == 0 <==> !(Bit(x, 1) || Bit(x, 2) || Bit(x, 3))
  {
    var y := x / 2;
    var z := y / 2;
    var t := z / 2;
    assert Bit(x, 1) == (y % 2 == 1) && Bit(x, 2) == Bit(y, 1) == (z % 2 == 1);
    assert Bit(x, 3) == Bit(y, 2) == Bit(z, 1) == (t % 2 == 1);
    assert y == 8 * (t / 2) + (4 * (t % 2) + 2 * (z % 2) + y % 2);
    Divided(8, t / 2, 4 * (t % 2) + 2 * (z % 2) + y % 2);
  }

  lemma Masks()
    ensures Mask(9) == 512 && Mask(10) == 1024 && Mask(12) == PGSIZE && Mask(18) == 0x4_0000
  {
    assert Mask(4) == 16;
    assert Mask(8) == 256;
    assert Mask(12) == 4096;
    assert Mask(16) == 0x1_0000;
  }

  lemma Octal(m: nat, g: nat)
    ensures (8 * m + g) % 8 == g % 8
  {
  }

  /** The three PX indices of a virtual page number. */
  function Px(level: nat, v: nat): (i: nat)
    requires level <= 2
    ensures i < ENTRIES
  {
    if level == 0 then v % 512 else if level == 1 then v / 512 % 512 else v / 0x4_0000 % 512
  }

  /** Below MAXVA the three indices determine the page. */
  lemma PxInjective(u: nat, v: nat)
    requires u < NVPN && v < NVPN
    requires forall l :: 0 <= l <= 2 ==> Px(l, u) == Px(l, v)
    ensures u == v
  {
    assert Px(0, u) == Px(0, v) && Px(1, u) == Px(1, v) && Px(2, u) == Px(2, v);
    PxSum(u);
    PxSum(v);
  }

  /** PX(level, va) is the nine bits of the address from bit 12 + 9 * level on. */
  lemma PxBits(level: nat, va: nat, k: nat)
    requires level <= 2
    ensures Bit(Px(level, va / PGSIZE), k) == (k < 9 && Bit(va, 12 + 9 * level + k))
  {
    hide Bit, Mask;
    Masks();
    var v := va / PGSIZE;
    var s := if level == 0 then v else if level == 1 then v / 512 else v / 0x4_0000;
    BitJoined(s / 512, s % 512, 9, k);
    if k >= 9 { HighBits(s % 512, 9, k); }
    if level == 1 { BitJoined(v / 512, v % 512, 9, 9 + k); }
    if level == 2 { BitJoined(v / 0x4_0000, v % 0x4_0000, 18, 18 + k); }
    BitJoined(va / PGSIZE, va % PGSIZE, 12, 12 + 9 * level + k);
  }

  lemma PxSum(u: nat)
    requires u < NVPN
    ensures u == 0x4_0000 * Px(2, u) + 512 * Px(1, u) + Px(0, u)
  {
    var a := u / 512 / 512;
    Divided(0x4_0000, a, 512 * (u / 512 % 512) + u % 512);
    Divided(512, 0, a);
  }

  lemma RootIndex(v: nat)
    requires v < NVPN
    ensures Px(2, v) < ENTRIES / 2
  {
  }

  // Tables

  /** Where a table page sits in its tree. */
  datatype Node = Root | Mid(i2: nat) | Low(i2: nat, i1: nat)

  /** The table pages of one tree. That each has one place in it is what rules out sharing. */
  type Tables = map<nat, Node>

  ghost predicate EntryOk(mem: Mem, ts: Tables, q: nat, i: nat)
    requires q in ts && q in mem && i < ENTRIES
  {
    !ts[q].Low? && Present(mem[q][i]) ==>
      && Flags(mem[q][i]) == PTE_V
      && Pa(mem[q][i]) in ts
      && ts[Pa(mem[q][i])] == if ts[q].Root? then Mid(i) else Low(ts[q].i2, i)
  }

  /** A table page is the one its parent's entry points to. MAXVA leaves the upper half of the
      root unused. */
  ghost predicate Attached(mem: Mem, root: nat, ts: Tables, q: nat)
    requires q in ts && root in ts && ts.Keys <= mem.Keys
  {
    match ts[q]
    case Root => q == root
    case Mid(i2) => i2 < ENTRIES / 2 && Present(mem[root][i2]) && Pa(mem[root][i2]) == q
    case Low(i2, i1) =>
      && i2 < ENTRIES / 2 && i1 < ENTRIES && Present(mem[root][i2])
      && Pa(mem[root][i2]) in ts && ts[Pa(mem[root][i2])] == Mid(i2)
      && Present(mem[Pa(mem[root][i2])][i1]) && Pa(mem[Pa(mem[root][i2])][i1]) == q
  }

  ghost predicate Tree(mem: Mem, root: nat, ts: Tables) {
    && root in ts && ts[root] == Root && ts.Keys <= mem.Keys && 0 !in ts
    && (forall q, i :: q in ts && 0 <= i < ENTRIES ==> EntryOk(mem, ts, q, i))
    && (forall q :: q in ts ==> Attached(mem, root, ts, q))
  }

  /** The table page that walk reaches for page `v` at `level`, if the path is there. */
  ghost function TableFor(mem: Mem, root: nat, ts: Tables, v: nat, level: nat): (q: nat)
    requires Tree(mem, root, ts) && level <= 2
    ensures q == 0 || q in ts
    ensures q != 0 ==>
              ts[q] == if level == 2 then Root else if level == 1 then Mid(Px(2, v)) else Low(Px(2, v), Px(1, v))
    decreases 2 - level
  {
    if level == 2 then root
    else
      var p := TableFor(mem, root, ts, v, level + 1);
      if p == 0 || !Present(mem[p][Px(level + 1, v)]) then 0
      else
        assert EntryOk(mem, ts, p, Px(level + 1, v));
        Pa(mem[p][Px(level + 1, v)])
  }

  /** The flat map: the entry for page `v`, or zero if there is no table for it. */
  ghost function Flat(mem: Mem, root: nat, ts: Tables, v: nat): (pte: nat)
    requires Tree(mem, root, ts)
  {
    var q := TableFor(mem, root, ts, v, 0);
    if q == 0 then 0 else mem[q][Px(0, v)]
  }

  /** A tree depends on its own table pages only. */
  lemma Unrelated(mem: Mem, mem': Mem, root: nat, ts: Tables)
    requires Tree(mem, root, ts) && ts.Keys <= mem'.Keys
    requires forall q :: q in ts ==> mem'[q] == mem[q]
    ensures Tree(mem', root, ts)
    ensures forall v :: Flat(mem', root, ts, v) == Flat(mem, root, ts, v)
  {
    forall q, i | q in ts && 0 <= i < ENTRIES ensures EntryOk(mem', ts, q, i) {
      assert EntryOk(mem, ts, q, i);
    }
    forall q | q in ts ensures Attached(mem', root, ts, q) {
      assert Attached(mem, root, ts, q);
    }
    forall v: nat ensures Flat(mem', root, ts, v) == Flat(mem, root, ts, v) {
      UnrelatedPath(mem, mem', root, ts, v, 0);
    }
  }

  lemma {:induction false} UnrelatedPath(mem: Mem, mem': Mem, root: nat, ts: Tables, v: nat, level: nat)
    requires Tree(mem, root, ts) && Tree(mem', root, ts) && level <= 2
    requires forall q :: q in ts ==> mem'[q] == mem[q]
    ensures TableFor(mem', root, ts, v, level) == TableFor(mem, root, ts, v, level)
    decreases 2 - level
  {
    if level < 2 { UnrelatedPath(mem, mem', root, ts, v, level + 1); }
  }

  /** Storing an entry of a lowest-level table changes the flat map at that page and nowhere else. */
  lemma SetLeaf(mem: Mem, root: nat, ts: Tables, v: nat, x: nat)
    requires Tree(mem, root, ts) && v < NVPN && TableFor(mem, root, ts, v, 0) != 0
    ensures var q := TableFor(mem, root, ts, v, 0);
            var mem' := mem[q := mem[q][Px(0, v) := x]];
            && Tree(mem', root, ts)
            && TableFor(mem', root, ts, v, 0) == q
            && forall u :: 0 <= u < NVPN ==> Flat(mem', root, ts, u) == if u == v then x else Flat(mem, root, ts, u)
  {
    var q := TableFor(mem, root, ts, v, 0);
    var mem' := mem[q := mem[q][Px(0, v) := x]];
    forall p, i | p in ts && 0 <= i < ENTRIES ensures EntryOk(mem', ts, p, i) {
      assert EntryOk(mem, ts, p, i);
    }
    forall p | p in ts ensures Attached(mem', root, ts, p) {
      assert Attached(mem, root, ts, p);
    }
    assert Tree(mem', root, ts);
    forall u: nat ensures TableFor(mem', root, ts, u, 0) == TableFor(mem, root, ts, u, 0) {
      SamePath(mem, mem', root, ts, u);
    }
    forall u: nat | u < NVPN && u != v ensures Flat(mem', root, ts, u) == Flat(mem, root, ts, u) {
      if Px(0, u) == Px(0, v) && TableFor(mem, root, ts, u, 0) == q {
        PxInjective(u, v);
      }
    }
  }

  /** Paths depend on the two upper levels of tables only. */
  lemma SamePath(mem: Mem, mem': Mem, root: nat, ts: Tables, v: nat)
    requires Tree(mem, root, ts) && Tree(mem', root, ts)
    requires forall q :: q in ts && !ts[q].Low? ==> mem'[q] == mem[q]
    ensures TableFor(mem', root, ts, v, 0) == TableFor(mem, root, ts, v, 0)
  {
    assert TableFor(mem', root, ts, v, 1) == TableFor(mem, root, ts, v, 1);
  }

  function Child(n: Node, i: nat): Node
    requires !n.Low?
  {
    if n.Root? then Mid(i) else Low(n.i2, i)
  }

  function WithTable(mem: Mem, q: nat, i: nat, z: nat): (mem': Mem)
    requires q in mem && i < ENTRIES
  {
    mem[z := FilledPage(0)][q := mem[q][i := MkPte(z, 0)]]
  }

  /** Hanging a zeroed page under an empty entry leaves the flat map alone. */
  lemma AddTableTree(mem: Mem, root: nat, ts: Tables, q: nat, i: nat, z: nat)
    requires Tree(mem, root, ts) && q in ts && !ts[q].Low? && i < ENTRIES && !Present(mem[q][i])
    requires z in mem && z !in ts && z != 0 && z % PGSIZE == 0 && (ts[q].Root? ==> i < ENTRIES / 2)
    ensures Tree(WithTable(mem, q, i, z), root, ts[z := Child(ts[q], i)])
  {
    var mem', ts' := WithTable(mem, q, i, z), ts[z := Child(ts[q], i)];
    PteFields(z, 0);
    assert Attached(mem, root, ts, q);
    forall p, k | p in ts' && 0 <= k < ENTRIES ensures EntryOk(mem', ts', p, k) {
      if p in ts { assert EntryOk(mem, ts, p, k); }
    }
    forall p | p in ts' ensures Attached(mem', root, ts', p) {
      if p in ts { assert Attached(mem, root, ts, p); }
    }
  }

  lemma AddTable(mem: Mem, root: nat, ts: Tables, q: nat, i: nat, z: nat, v: nat)
    requires Tree(mem, root, ts) && q in ts && !ts[q].Low? && i < ENTRIES && !Present(mem[q][i])
    requires z in mem && z !in ts && z != 0 && z % PGSIZE == 0 && (ts[q].Root? ==> i < ENTRIES / 2)
    requires Tree(WithTable(mem, q, i, z), root, ts[z := Child(ts[q], i)])
    ensures Flat(WithTable(mem, q, i, z), root, ts[z := Child(ts[q], i)], v) == Flat(mem, root, ts, v)
    ensures forall level :: 1 <= level <= 2 && q == TableFor(mem, root, ts, v, level) && i == Px(level, v)
              ==> TableFor(WithTable(mem, q, i, z), root, ts[z := Child(ts[q], i)], v, level - 1) == z
  {
    var mem', ts' := WithTable(mem, q, i, z), ts[z := Child(ts[q], i)];
    PteFields(z, 0);
    assert Attached(mem, root, ts, q);
    var m, m' := TableFor(mem, root, ts, v, 1), TableFor(mem', root, ts', v, 1);
    assert EntryOk(mem, ts, root, Px(2, v));
    if q == root && i == Px(2, v) {
      assert m == 0 && m' == z;
    } else {
      assert m' == m;
      if m != 0 {
        assert EntryOk(mem, ts, m, Px(1, v));
      }
    }
  }
}
