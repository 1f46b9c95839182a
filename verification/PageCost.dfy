/** How many pages a growing page table takes from the free list: its frames, and the tables on the
    way to them that are not there yet. */
module PageCost {
  import opened PageTable

  /** The place of the table that page `v` has at `level`. */
  ghost function Step(v: nat, level: nat): (n: Node)
    requires level <= 1
  {
    if level == 1 then Mid(Px(2, v)) else Low(Px(2, v), Px(1, v))
  }

  /** The tables below the root for page `v`, down to `level`. */
  ghost function PathTo(v: nat, level: nat): (ns: set<Node>) {
    if level >= 2 then {} else if level == 1 then {Step(v, 1)} else {Step(v, 1), Step(v, 0)}
  }

  ghost function Path(v: nat): (ns: set<Node>) { PathTo(v, 0) }

  /** Those for the pages from `lo` to `hi`. */
  ghost function Paths(lo: nat, hi: nat): (ns: set<Node>) {
    if hi <= lo then {} else Paths(lo, hi - 1) + Path(hi - 1)
  }

  /** How many of the tables `ns` are missing. */
  ghost function Lacking(ns: set<Node>, ts: Tables): (k: nat) {
    |ns - ts.Values|
  }

  /** The pages that mapping `lo` to `hi` takes, with a frame for each and the tables that `ts` lacks. */
  ghost function Cost(ts: Tables, lo: nat, hi: nat): (n: nat)
    requires lo <= hi
  {
    hi - lo + Lacking(Paths(lo, hi), ts)
  }

  /** From `f` to `f'` exactly `k` pages and the tables `ns`, where missing, have been taken. */
  ghost predicate Spent(k: nat, ns: set<Node>, ts: Tables, ts': Tables, f: seq<nat>, f': seq<nat>) {
    ts'.Values == ts.Values + ns && |f'| + k + Lacking(ns, ts) == |f|
  }

  lemma SpentNothing(ts: Tables, f: seq<nat>)
    ensures Spent(0, {}, ts, ts, f, f)
  {
    assert {} - ts.Values == {};
  }

  lemma SpentTwice(k: nat, ns: set<Node>, j: nat, ms: set<Node>, ts: Tables, ts1: Tables, ts2: Tables,
                   f: seq<nat>, f1: seq<nat>, f2: seq<nat>)
    requires Spent(k, ns, ts, ts1, f, f1) && Spent(j, ms, ts1, ts2, f1, f2)
    ensures Spent(k + j, ns + ms, ts, ts2, f, f2)
  {
    More(ns, ms, ts.Values);
  }

  /** When what is left is too little for the rest, there was too little from the start. */
  lemma TooLittle(k: nat, ns: set<Node>, j: nat, ms: set<Node>, n: nat, all: set<Node>, ts: Tables, ts1: Tables,
                  f: seq<nat>, f1: seq<nat>)
    requires Spent(k, ns, ts, ts1, f, f1) && |f1| < j + Lacking(ms, ts1) && k + j <= n && ns + ms <= all
    ensures |f| < n + Lacking(all, ts)
  {
    More(ns, ms, ts.Values);
    Fewer(ns + ms - ts.Values, all - ts.Values);
  }

  lemma SpentEnough(k: nat, ns: set<Node>, ts: Tables, ts': Tables, f: seq<nat>, f': seq<nat>)
    requires Spent(k, ns, ts, ts', f, f')
    ensures |f| >= k + Lacking(ns, ts)
  {
  }

  /** walk finds the next table there. */
  lemma SpentThere(v: nat, level: nat, t: nat, ts: Tables, ts': Tables, f: seq<nat>, f': seq<nat>)
    requires 1 <= level <= 2 && Spent(0, PathTo(v, level), ts, ts', f, f') && t in ts' && ts'[t] == Step(v, level - 1)
    ensures Spent(0, PathTo(v, level - 1), ts, ts', f, f')
  {
    assert Step(v, level - 1) in ts'.Values && Step(v, level - 1) !in PathTo(v, level);
    assert PathTo(v, level - 1) - ts.Values == PathTo(v, level) - ts.Values;
  }

  /** walk would need another table and there is no page left. */
  lemma SpentAll(v: nat, level: nat, ts: Tables, ts': Tables, f: seq<nat>, f': seq<nat>)
    requires 1 <= level <= 2 && Spent(0, PathTo(v, level), ts, ts', f, f') && f' == []
    requires Step(v, level - 1) !in ts'.Values
    ensures |f| < Lacking(Path(v), ts)
  {
    hide Px;
    var all := PathTo(v, level) + {Step(v, level - 1)};
    assert {Step(v, level - 1)} - ts'.Values == {Step(v, level - 1)};
    assert all <= Path(v);
    TooLittle(0, PathTo(v, level), 0, {Step(v, level - 1)}, 0, Path(v), ts, ts', f, f');
  }

  /** A growth from `lo` on stops at page `a`. */
  lemma CannotGrow(lo: nat, a: nat, hi: nat, ts: Tables, ts': Tables, f: seq<nat>, f': seq<nat>)
    requires lo <= a < hi && Spent(a - lo, Paths(lo, a), ts, ts', f, f') && |f'| < 1 + Lacking(Path(a), ts')
    ensures |f| < Cost(ts, lo, hi)
  {
    hide Path;
    PathsGrow(lo, a + 1, hi);
    TooLittle(a - lo, Paths(lo, a), 1, Path(a), hi - lo, Paths(lo, hi), ts, ts', f, f');
  }

  lemma More(ns: set<Node>, ms: set<Node>, v: set<Node>)
    ensures |ns + ms - v| == |ns - v| + |ms - (v + ns)|
  {
    assert ns + ms - v == (ns - v) + (ms - (v + ns));
  }

  lemma Fewer(a: set<Node>, b: set<Node>)
    requires a <= b
    ensures |a| <= |b|
  {
    assert b == a + (b - a);
  }

  lemma {:induction false} PathsGrow(lo: nat, a: nat, hi: nat)
    requires a <= hi
    ensures Paths(lo, a) <= Paths(lo, hi)
  {
    if a < hi { PathsGrow(lo, a, hi - 1); }
  }

  lemma PathShort(v: nat)
    ensures |Path(v)| <= 2
  {
    hide Px;
  }

  /** Three pages for each page that is mapped are always enough. */
  lemma {:induction false} CostBound(ts: Tables, lo: nat, hi: nat)
    requires lo <= hi
    ensures Cost(ts, lo, hi) <= 3 * (hi - lo)
  {
    hide Path, Lacking;
    if lo < hi {
      CostBound(ts, lo, hi - 1);
      LackingMore(Paths(lo, hi - 1), Path(hi - 1), ts);
      PathShort(hi - 1);
    } else {
      LackingNone(ts);
    }
  }

  lemma LackingMore(ns: set<Node>, ms: set<Node>, ts: Tables)
    ensures Lacking(ns + ms, ts) <= Lacking(ns, ts) + |ms|
  {
    More(ns, ms, ts.Values);
    Fewer(ms - (ts.Values + ns), ms);
  }

  lemma LackingNone(ts: Tables)
    ensures Lacking({}, ts) == 0
  {
    assert {} - ts.Values == {};
  }

  lemma LackingOne(n: Node, ts: Tables)
    requires n !in ts.Values
    ensures Lacking({n}, ts) == 1
  {
    assert {n} - ts.Values == {n};
  }

  /** A table whose entry is empty is not there. */
  lemma NoTable(mem: Mem, root: nat, ts: Tables, v: nat, level: nat, t: nat)
    requires Tree(mem, root, ts) && 1 <= level <= 2 && t != 0 && t == TableFor(mem, root, ts, v, level)
    requires !Present(mem[t][Px(level, v)])
    ensures Step(v, level - 1) !in ts.Values
  {
    forall q | q in ts ensures ts[q] != Step(v, level - 1) {
      assert Attached(mem, root, ts, q);
      assert level == 1 ==> t == Pa(mem[root][Px(2, v)]);
    }
  }

  lemma SpentTable(ts: Tables, z: nat, n: Node, f: seq<nat>, f': seq<nat>)
    requires z !in ts && n !in ts.Values && |f'| + 1 == |f|
    ensures Spent(0, {n}, ts, ts[z := n], f, f')
  {
    NewValue(ts, z, n);
    LackingOne(n, ts);
  }

  lemma NewValue(ts: Tables, z: nat, n: Node)
    requires z !in ts
    ensures ts[z := n].Values == ts.Values + {n}
  {
    var ts' := ts[z := n];
    forall m | m in ts.Values ensures m in ts'.Values {
      var q :| q in ts && ts[q] == m;
      assert ts'[q] == m;
    }
    assert ts'[z] == n;
  }
}
