/** The free list of user/umalloc.c: a ring of blocks in address order, and who owns each unit of
    memory. Addresses count units of one header. */
module HeapList {
  /** `base`, the static header that starts the ring; the heap lies above it. */
  const BASE := 1

  datatype Header = Header(ptr: nat, size: nat)
  type Mem = map<nat, Header>

  /** The ring in address order from `base` on: no two blocks touch. */
  ghost predicate RingOk(mem: Mem, ring: seq<nat>) {
    && ring != [] && ring[0] == BASE
    && (forall i :: 0 <= i < |ring| ==> ring[i] in mem)
    && (forall i :: 0 <= i < |ring| - 1 ==> mem[ring[i]].ptr == ring[i + 1])
    && mem[ring[|ring| - 1]].ptr == BASE
    && mem[BASE].size == 0
    && (forall i :: 1 <= i < |ring| ==> mem[ring[i]].size > 0)
    && (forall i :: 0 <= i < |ring| - 1 ==> ring[i] + mem[ring[i]].size < ring[i + 1])
  }

  lemma {:induction false} Ascending(mem: Mem, ring: seq<nat>, i: nat, j: nat)
    requires RingOk(mem, ring) && i < j < |ring|
    ensures ring[i] < ring[j]
    decreases j
  {
    assert ring[j - 1] + mem[ring[j - 1]].size < ring[j - 1 + 1];
    if i < j - 1 { Ascending(mem, ring, i, j - 1); }
  }

  /** Block `b` owns exactly its units. */
  ghost predicate Owns(mem: Mem, owner: map<nat, nat>, b: nat) {
    && b in mem && mem[b].size > 0 && b > BASE
    && forall u :: b <= u < b + mem[b].size ==> u in owner && owner[u] == b
  }

  ghost predicate Within(mem: Mem, owner: map<nat, nat>, brk: nat, u: nat)
    requires u in owner
  {
    owner[u] in mem && owner[u] <= u < owner[u] + mem[owner[u]].size && u < brk
  }

  ghost predicate Block(ring: seq<nat>, live: set<nat>, b: nat) {
    (b in ring && b != BASE) || b in live
  }

  /** Every unit obtained is in exactly one block, which is either free or live. */
  ghost predicate Good(mem: Mem, ring: seq<nat>, live: set<nat>, owner: map<nat, nat>, brk: nat) {
    RingOk(mem, ring) && Owned(mem, ring, live, owner, brk)
  }

  ghost predicate Owned(mem: Mem, ring: seq<nat>, live: set<nat>, owner: map<nat, nat>, brk: nat) {
    && (forall b :: b in live ==> b !in ring)
    && (forall b :: Block(ring, live, b) ==> Owns(mem, owner, b))
    && (forall u :: u in owner ==> Block(ring, live, owner[u]) && Within(mem, owner, brk, u))
  }

  /** The last block of the ring below address `bp`. */
  ghost function Below(ring: seq<nat>, bp: nat): (k: nat)
    requires ring != [] && ring[0] < bp
    ensures k < |ring| && ring[k] < bp && (forall i :: k < i < |ring| ==> bp <= ring[i])
    decreases |ring|
  {
    if ring[|ring| - 1] < bp then |ring| - 1 else Below(ring[..|ring| - 1], bp)
  }

  ghost function Next(ring: seq<nat>, k: nat): (a: nat)
    requires k < |ring|
  {
    if k + 1 < |ring| then ring[k + 1] else ring[0]
  }

  lemma NextPtr(mem: Mem, ring: seq<nat>, k: nat)
    requires RingOk(mem, ring) && k < |ring|
    ensures ring[k] in mem && mem[ring[k]].ptr == Next(ring, k)
  {
  }

  /** Live blocks lie between the free ones. */
  lemma Between(mem: Mem, ring: seq<nat>, live: set<nat>, owner: map<nat, nat>, brk: nat, b: nat, k: nat)
    requires Good(mem, ring, live, owner, brk) && b in live && k < |ring| && ring[k] < b
    requires k + 1 < |ring| ==> b <= ring[k + 1]
    ensures b in mem && ring[k] + mem[ring[k]].size <= b && (k + 1 < |ring| ==> b + mem[b].size <= ring[k + 1])
  {
    assert Block(ring, live, b) && Owns(mem, owner, b);
    if k > 0 {
      assert ring[k] in ring && ring[k] != BASE;
      assert Owns(mem, owner, ring[k]);
      assert owner[b] == b;
    }
    if k + 1 < |ring| {
      assert ring[k + 1] in ring && ring[k + 1] != BASE;
      assert Owns(mem, owner, ring[k + 1]);
      assert owner[ring[k + 1]] == ring[k + 1];
    }
  }

  function Relabel(owner: map<nat, nat>, a: nat, b: nat): (r: map<nat, nat>) {
    map u | u in owner :: if owner[u] == a then b else owner[u]
  }

  // Changes to the ring

  ghost function Cut(ring: seq<nat>, k: nat): (r: seq<nat>)
    requires k + 1 < |ring|
    ensures |r| == |ring| - 1 && forall i :: 0 <= i < |r| ==> r[i] == ring[if i <= k then i else i + 1]
  {
    ring[..k + 1] + ring[k + 2..]
  }

  ghost function Insert(ring: seq<nat>, k: nat, b: nat): (r: seq<nat>)
    requires k < |ring|
    ensures |r| == |ring| + 1
    ensures forall i :: 0 <= i < |r| ==> r[i] == if i <= k then ring[i] else if i == k + 1 then b else ring[i - 1]
  {
    ring[..k + 1] + [b] + ring[k + 1..]
  }

  lemma CutRing(mem: Mem, mem1: Mem, ring: seq<nat>, k: nat)
    requires RingOk(mem, ring) && k + 1 < |ring|
    requires forall i :: 0 <= i < |ring| && i != k + 1 ==> ring[i] in mem1 && mem1[ring[i]].size == mem[ring[i]].size
    requires forall i :: 0 <= i < |ring| && i != k && i != k + 1 ==> mem1[ring[i]].ptr == mem[ring[i]].ptr
    requires mem1[ring[k]].ptr == mem[ring[k + 1]].ptr
    ensures RingOk(mem1, Cut(ring, k))
  {
    hide Cut;
    assert forall i :: 0 <= i < |ring| - 1 ==> ring[i] < ring[i + 1];
  }

  lemma InsertRing(mem: Mem, mem1: Mem, ring: seq<nat>, k: nat, b: nat)
    requires RingOk(mem, ring) && k < |ring|
    requires ring[k] + mem[ring[k]].size < b && b in mem1 && mem1[b].size > 0 && mem1[b].ptr == Next(ring, k)
    requires k + 1 < |ring| ==> b + mem1[b].size < ring[k + 1]
    requires forall i :: 0 <= i < |ring| ==> ring[i] in mem1 && mem1[ring[i]].size == mem[ring[i]].size
    requires forall i :: 0 <= i < |ring| && i != k ==> mem1[ring[i]].ptr == mem[ring[i]].ptr
    requires mem1[ring[k]].ptr == b
    ensures RingOk(mem1, Insert(ring, k, b))
  {
    var r := Insert(ring, k, b);
    assert r[k] == ring[k] && r[k + 1] == b;
    forall i | 0 <= i < |r| - 1
      ensures r[i] in mem1 && mem1[r[i]].ptr == r[i + 1] && r[i] + mem1[r[i]].size < r[i + 1]
    {
      if i > k + 1 { assert r[i] == ring[i - 1] && r[i + 1] == ring[i - 1 + 1]; }
    }
  }

  lemma ResizeRing(mem: Mem, mem1: Mem, ring: seq<nat>, k: nat)
    requires RingOk(mem, ring) && 1 <= k < |ring|
    requires forall i :: 0 <= i < |ring| ==> ring[i] in mem1 && mem1[ring[i]].ptr == mem[ring[i]].ptr
    requires forall i :: 0 <= i < |ring| && i != k ==> mem1[ring[i]].size == mem[ring[i]].size
    requires mem1[ring[k]].size > 0 && (k + 1 < |ring| ==> ring[k] + mem1[ring[k]].size < ring[k + 1])
    ensures RingOk(mem1, ring)
  {
  }

  // Changes of ownership

  /** Block `a` takes over block `n`, which follows it. */
  lemma Absorb(mem: Mem, mem1: Mem, ring: seq<nat>, ring1: seq<nat>, live: set<nat>, live1: set<nat>,
               owner: map<nat, nat>, brk: nat, a: nat, n: nat)
    requires Owned(mem, ring, live, owner, brk) && Block(ring, live, a) && Block(ring, live, n) && a != n && a in mem
    requires n in mem
    requires a + mem[a].size == n && forall b :: b in live1 ==> b !in ring1
    requires forall b :: Block(ring1, live1, b) <==> Block(ring, live, b) && b != n
    requires a in mem1 && mem1[a].size == mem[a].size + mem[n].size
    requires forall b :: Block(ring, live, b) && b != a && b != n ==>
              b in mem && b in mem1 && mem1[b].size == mem[b].size
    ensures Owned(mem1, ring1, live1, Relabel(owner, n, a), brk)
  {
    hide Block;
    var owner1 := Relabel(owner, n, a);
    assert Owns(mem, owner, a) && Owns(mem, owner, n);
    forall b | Block(ring1, live1, b) ensures Owns(mem1, owner1, b) {
      assert Block(ring, live, b) && Owns(mem, owner, b);
    }
    forall u | u in owner1 ensures Block(ring1, live1, owner1[u]) && Within(mem1, owner1, brk, u) {
      assert Block(ring, live, owner[u]) && Within(mem, owner, brk, u);
    }
  }

  /** The same blocks, live or free. */
  lemma Reclassify(mem: Mem, mem1: Mem, ring: seq<nat>, ring1: seq<nat>, live: set<nat>, live1: set<nat>,
                   owner: map<nat, nat>, brk: nat)
    requires Owned(mem, ring, live, owner, brk) && forall b :: b in live1 ==> b !in ring1
    requires forall b :: Block(ring1, live1, b) <==> Block(ring, live, b)
    requires forall b :: Block(ring, live, b) ==> b in mem && b in mem1 && mem1[b].size == mem[b].size
    ensures Owned(mem1, ring1, live1, owner, brk)
  {
    hide Block;
    forall b | Block(ring1, live1, b) ensures Owns(mem1, owner, b) {
      assert Block(ring, live, b) && Owns(mem, owner, b);
    }
    forall u | u in owner ensures Block(ring1, live1, owner[u]) && Within(mem1, owner, brk, u) {
      assert Block(ring, live, owner[u]) && Within(mem, owner, brk, u);
    }
  }

  function Carve(owner: map<nat, nat>, a: nat, n: nat): (r: map<nat, nat>) {
    map u | u in owner :: if a <= u < a + n then a else owner[u]
  }

  /** The last `n` units of block `p` become a live block `a` of their own. */
  lemma Split(mem: Mem, mem1: Mem, ring: seq<nat>, live: set<nat>, owner: map<nat, nat>, brk: nat, p: nat, a: nat,
              n: nat)
    requires Owned(mem, ring, live, owner, brk) && Block(ring, live, p) && Shrunk(mem, mem1, p, a, n) && a !in ring
    requires forall b :: Block(ring, live, b) && b != p ==> b in mem && b in mem1 && mem1[b].size == mem[b].size
    ensures Owned(mem1, ring, live + {a}, Carve(owner, a, n), brk)
  {
    hide Block, Owns, Within, Carve, Shrunk;
    SplitBlocks(ring, live, a);
    CarveKeys(owner, a, n);
    assert Owns(mem, owner, p);
    forall b | Block(ring, live + {a}, b) ensures Owns(mem1, Carve(owner, a, n), b) {
      if b != p && b != a { assert Owns(mem, owner, b); }
      SplitOwns(mem, mem1, owner, p, a, n, b);
    }
    forall u | u in Carve(owner, a, n)
      ensures Block(ring, live + {a}, Carve(owner, a, n)[u]) && Within(mem1, Carve(owner, a, n), brk, u)
    {
      assert Block(ring, live, owner[u]) && Within(mem, owner, brk, u);
      SplitWithin(mem, mem1, owner, brk, p, a, n, u);
    }
  }

  ghost predicate Shrunk(mem: Mem, mem1: Mem, p: nat, a: nat, n: nat) {
    && p in mem && 0 < n < mem[p].size && p in mem1 && mem1[p].size == mem[p].size - n
    && a == p + mem1[p].size && a in mem1 && mem1[a].size == n
  }

  lemma SplitBlocks(ring: seq<nat>, live: set<nat>, a: nat)
    ensures forall b :: Block(ring, live + {a}, b) <==> Block(ring, live, b) || b == a
  {
  }

  lemma CarveKeys(owner: map<nat, nat>, a: nat, n: nat)
    ensures Carve(owner, a, n).Keys == owner.Keys
  {
  }

  lemma SplitOwns(mem: Mem, mem1: Mem, owner: map<nat, nat>, p: nat, a: nat, n: nat, b: nat)
    requires Owns(mem, owner, p) && Shrunk(mem, mem1, p, a, n)
    requires b == p || b == a || (Owns(mem, owner, b) && b in mem1 && mem1[b].size == mem[b].size)
    ensures Owns(mem1, Carve(owner, a, n), b)
  {
  }

  lemma SplitWithin(mem: Mem, mem1: Mem, owner: map<nat, nat>, brk: nat, p: nat, a: nat, n: nat, u: nat)
    requires Owns(mem, owner, p) && Shrunk(mem, mem1, p, a, n)
    requires u in owner && Within(mem, owner, brk, u)
    requires owner[u] != p ==> owner[u] in mem1 && mem1[owner[u]].size == mem[owner[u]].size
    ensures var r := Carve(owner, a, n); u in r && Within(mem1, r, brk, u) && (r[u] == owner[u] || r[u] == a)
  {
  }

  lemma Apart(mem: Mem, ring: seq<nat>, live: set<nat>, owner: map<nat, nat>, brk: nat, i: nat)
    requires Good(mem, ring, live, owner, brk) && i < |ring|
    ensures ring[i] !in live && (i > 0 ==> Block(ring, live, ring[i]) && Owns(mem, owner, ring[i]))
    ensures forall j :: 0 <= j < |ring| && j != i ==> ring[j] != ring[i]
  {
    assert ring[i] in ring;
    if i > 0 { Ascending(mem, ring, 0, i); }
    forall j | 0 <= j < |ring| && j != i ensures ring[j] != ring[i] {
      if i < j { Ascending(mem, ring, i, j); } else { Ascending(mem, ring, j, i); }
    }
  }

  /** free, first half: a live block takes over the free block after it. */
  lemma MergeNext(mem: Mem, mem1: Mem, ring: seq<nat>, live: set<nat>, owner: map<nat, nat>, brk: nat, b: nat, k: nat)
    requires Good(mem, ring, live, owner, brk) && b in live && b in mem && k + 1 < |ring|
    requires b + mem[b].size == ring[k + 1]
    requires mem1 == mem[ring[k] := mem[ring[k]].(ptr := mem[ring[k + 1]].ptr)]
                        [b := Header(mem[ring[k + 1]].ptr, mem[b].size + mem[ring[k + 1]].size)]
    ensures Good(mem1, Cut(ring, k), live, Relabel(owner, ring[k + 1], b), brk)
  {
    hide Cut, Relabel;
    Apart(mem, ring, live, owner, brk, k);
    Apart(mem, ring, live, owner, brk, k + 1);
    forall i | 0 <= i < |ring| ensures ring[i] != b { assert ring[i] in ring; }
    CutRing(mem, mem1, ring, k);
    CutBlocks(ring, live, k);
    assert Block(ring, live, b);
    forall c | Block(ring, live, c) ensures c in mem { assert Owns(mem, owner, c); }
    Absorb(mem, mem1, ring, Cut(ring, k), live, live, owner, brk, b, ring[k + 1]);
  }

  lemma CutBlocks(ring: seq<nat>, live: set<nat>, k: nat)
    requires k + 1 < |ring| && ring[0] == BASE && ring[k + 1] !in live
    requires forall i, j :: 0 <= i < |ring| && 0 <= j < |ring| && i != j && i == k + 1 ==> ring[i] != ring[j]
    ensures forall b :: Block(Cut(ring, k), live, b) <==> Block(ring, live, b) && b != ring[k + 1]
    ensures forall b :: b in Cut(ring, k) ==> b in ring
  {
    var r := Cut(ring, k);
    forall b | b in r ensures b in ring && b != ring[k + 1] {
      var i :| 0 <= i < |r| && r[i] == b;
    }
    forall b | b in ring && b != ring[k + 1] ensures b in r {
      var i :| 0 <= i < |ring| && ring[i] == b;
      assert r[if i <= k then i else i - 1] == b;
    }
  }

  /** free, second half: the free block before it takes over the live block. */
  lemma MergePrev(mem: Mem, mem1: Mem, ring: seq<nat>, live: set<nat>, owner: map<nat, nat>, brk: nat, b: nat, k: nat)
    requires Good(mem, ring, live, owner, brk) && b in live && b in mem && k < |ring|
    requires ring[k] + mem[ring[k]].size == b
    requires k + 1 < |ring| ==> b + mem[b].size < ring[k + 1]
    requires ring[k] in mem1 && mem1[ring[k]] == mem[ring[k]].(size := mem[ring[k]].size + mem[b].size)
    requires forall c :: c in mem && c != ring[k] && c != b && Kept(ring, live, c) ==> c in mem1 && mem1[c] == mem[c]
    ensures Good(mem1, ring, live - {b}, Relabel(owner, b, ring[k]), brk) && k > 0
  {
    hide Relabel;
    assert Block(ring, live, b) && Owns(mem, owner, b);
    Apart(mem, ring, live, owner, brk, k);
    forall i | 0 <= i < |ring| ensures ring[i] != b { assert ring[i] in ring; }
    ResizeRing(mem, mem1, ring, k);
    forall c | Block(ring, live, c) ensures c in mem { assert Owns(mem, owner, c); }
    Absorb(mem, mem1, ring, ring, live, live - {b}, owner, brk, ring[k], b);
  }

  /** free, second half: or the live block joins the ring. */
  lemma Join(mem: Mem, mem1: Mem, ring: seq<nat>, live: set<nat>, owner: map<nat, nat>, brk: nat, b: nat, k: nat)
    requires Good(mem, ring, live, owner, brk) && b in live && b in mem && k < |ring| && ring[k] + mem[ring[k]].size < b
    requires k + 1 < |ring| ==> b + mem[b].size < ring[k + 1]
    requires ring[k] in mem1 && mem1[ring[k]] == mem[ring[k]].(ptr := b) && b in mem1
    requires mem1[b] == Header(Next(ring, k), mem[b].size)
    requires forall c :: c in mem && c != ring[k] && c != b && Kept(ring, live, c) ==> c in mem1 && mem1[c] == mem[c]
    ensures Good(mem1, Insert(ring, k, b), live - {b}, owner, brk)
  {
    hide Insert;
    assert Block(ring, live, b) && Owns(mem, owner, b);
    Apart(mem, ring, live, owner, brk, k);
    forall i | 0 <= i < |ring| ensures ring[i] != b { assert ring[i] in ring; }
    InsertRing(mem, mem1, ring, k, b);
    InsertBlocks(ring, live, k, b);
    forall c | Block(ring, live, c) ensures c in mem { assert Owns(mem, owner, c); }
    Reclassify(mem, mem1, ring, Insert(ring, k, b), live, live - {b}, owner, brk);
  }

  lemma InsertBlocks(ring: seq<nat>, live: set<nat>, k: nat, b: nat)
    requires k < |ring| && ring[0] == BASE && b in live && b != BASE && (forall c :: c in live ==> c !in ring)
    ensures forall c :: Block(Insert(ring, k, b), live - {b}, c) <==> Block(ring, live, c)
    ensures forall c :: c in live - {b} ==> c !in Insert(ring, k, b)
  {
    var r := Insert(ring, k, b);
    forall c | c in r ensures c in ring || c == b {
      var i :| 0 <= i < |r| && r[i] == c;
    }
    forall c | c in ring || c == b ensures c in r {
      if c == b { assert r[k + 1] == b; } else {
        var i :| 0 <= i < |ring| && ring[i] == c;
        assert r[if i <= k then i else i + 1] == c;
      }
    }
  }

  /** The headers that matter: those of the ring and of live blocks. */
  ghost predicate Kept(ring: seq<nat>, live: set<nat>, c: nat) {
    c in ring || c in live
  }

  // malloc

  /** A whole free block becomes live. */
  lemma Unlink(mem: Mem, mem1: Mem, ring: seq<nat>, live: set<nat>, owner: map<nat, nat>, brk: nat, k: nat)
    requires Good(mem, ring, live, owner, brk) && k + 1 < |ring|
    requires mem1 == mem[ring[k] := mem[ring[k]].(ptr := mem[ring[k + 1]].ptr)]
    ensures Good(mem1, Cut(ring, k), live + {ring[k + 1]}, owner, brk) && ring[k + 1] !in live
  {
    hide Cut;
    Apart(mem, ring, live, owner, brk, k);
    Apart(mem, ring, live, owner, brk, k + 1);
    CutRing(mem, mem1, ring, k);
    CutBlocks(ring, live, k);
    forall c | Block(ring, live, c) ensures c in mem { assert Owns(mem, owner, c); }
    var p := ring[k + 1];
    assert forall b :: Block(Cut(ring, k), live + {p}, b) <==> Block(Cut(ring, k), live, b) || b == p;
    assert p !in Cut(ring, k) by { assert !Block(Cut(ring, k), live, p); }
    Reclassify(mem, mem1, ring, Cut(ring, k), live, live + {p}, owner, brk);
  }

  /** The tail of a free block becomes live. */
  lemma SplitTail(mem: Mem, mem1: Mem, ring: seq<nat>, live: set<nat>, owner: map<nat, nat>, brk: nat, k: nat, a: nat,
                  n: nat)
    requires Good(mem, ring, live, owner, brk) && 1 <= k < |ring| && 0 < n < mem[ring[k]].size
    requires a == ring[k] + mem[ring[k]].size - n
    requires a in mem1 && mem1[a].size == n && ring[k] in mem1
    requires mem1[ring[k]] == mem[ring[k]].(size := mem[ring[k]].size - n)
    requires forall c :: c in mem && c != a && c != ring[k] ==> c in mem1 && mem1[c] == mem[c]
    ensures Good(mem1, ring, live + {a}, Carve(owner, a, n), brk) && a !in live && a !in ring && a in owner
    ensures owner[a] == ring[k]
  {
    Apart(mem, ring, live, owner, brk, k);
    assert owner[a] == ring[k];
    forall c | Block(ring, live, c) ensures c in mem && c != a { assert Owns(mem, owner, c); }
    assert !Block(ring, live, a);
    Ascending(mem, ring, 0, k);
    forall i | 0 <= i < |ring| ensures ring[i] != a { assert ring[i] in ring; }
    ResizeRing(mem, mem1, ring, k);
    hide Carve;
    Split(mem, mem1, ring, live, owner, brk, ring[k], a, n);
  }

  ghost function Extend(owner: map<nat, nat>, a: nat, n: nat): (r: map<nat, nat>)
    ensures forall u :: u in r <==> u in owner || a <= u < a + n
    ensures forall u :: u in r ==> r[u] == if a <= u < a + n then a else owner[u]
  {
    if n == 0 then owner else Extend(owner, a, n - 1)[a + n - 1 := a]
  }

  /** New memory above all that there was is a live block. */
  lemma Grow(mem: Mem, mem1: Mem, ring: seq<nat>, live: set<nat>, owner: map<nat, nat>, brk: nat, a: nat, n: nat)
    requires Good(mem, ring, live, owner, brk) && BASE < brk <= a && n > 0 && a in mem1 && mem1[a].size == n
    requires forall c :: c in mem && c != a ==> c in mem1 && mem1[c] == mem[c]
    ensures Good(mem1, ring, live + {a}, Extend(owner, a, n), a + n) && a !in live && a !in ring
  {
    hide Extend, Owns, Within;
    forall c: nat | Block(ring, live, c) ensures c in mem && c < a {
      BlockBelow(mem, ring, live, owner, brk, c);
    }
    assert !Block(ring, live, a);
    forall i | 0 <= i < |ring| ensures ring[i] != a && ring[i] in mem1 && mem1[ring[i]] == mem[ring[i]] {
      if i > 0 { Ascending(mem, ring, 0, i); assert ring[i] in ring; }
    }
    assert forall b :: Block(ring, live + {a}, b) <==> Block(ring, live, b) || b == a;
    GrowRing(mem, mem1, ring);
    hide Block;
    forall b | Block(ring, live + {a}, b) ensures Owns(mem1, Extend(owner, a, n), b) {
      if b != a { assert Owns(mem, owner, b); BlockBelow(mem, ring, live, owner, brk, b); }
      GrowOwns(mem, mem1, owner, brk, a, n, b);
    }
    forall u | u in Extend(owner, a, n)
      ensures Block(ring, live + {a}, Extend(owner, a, n)[u]) && Within(mem1, Extend(owner, a, n), a + n, u)
    {
      if u in owner { assert Block(ring, live, owner[u]) && Within(mem, owner, brk, u); }
      GrowWithin(mem, mem1, owner, brk, a, n, u);
    }
  }

  lemma BlockBelow(mem: Mem, ring: seq<nat>, live: set<nat>, owner: map<nat, nat>, brk: nat, c: nat)
    requires Owned(mem, ring, live, owner, brk) && Block(ring, live, c)
    ensures c in mem && c < brk && c + mem[c].size <= brk
  {
    assert Owns(mem, owner, c);
    assert Within(mem, owner, brk, c + mem[c].size - 1);
  }

  lemma GrowOwns(mem: Mem, mem1: Mem, owner: map<nat, nat>, brk: nat, a: nat, n: nat, b: nat)
    requires BASE < brk <= a && n > 0 && a in mem1 && mem1[a].size == n
    requires b == a || (Owns(mem, owner, b) && b in mem1 && mem1[b] == mem[b] && b + mem[b].size <= brk)
    ensures Owns(mem1, Extend(owner, a, n), b)
  {
  }

  lemma GrowWithin(mem: Mem, mem1: Mem, owner: map<nat, nat>, brk: nat, a: nat, n: nat, u: nat)
    requires brk <= a && n > 0 && a in mem1 && mem1[a].size == n && u in Extend(owner, a, n)
    requires u in owner ==> Within(mem, owner, brk, u) && owner[u] in mem1 && mem1[owner[u]] == mem[owner[u]]
    ensures Within(mem1, Extend(owner, a, n), a + n, u)
    ensures Extend(owner, a, n)[u] == a || (u in owner && Extend(owner, a, n)[u] == owner[u])
  {
  }

  lemma GrowRing(mem: Mem, mem1: Mem, ring: seq<nat>)
    requires RingOk(mem, ring) && forall i :: 0 <= i < |ring| ==> ring[i] in mem1 && mem1[ring[i]] == mem[ring[i]]
    ensures RingOk(mem1, ring)
  {
  }
}
