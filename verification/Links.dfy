/** Link counts (kernel/sysfile.c, kernel/fs.c): what the directories say about every inode, and
    why adding, creating and removing an entry keeps the counts right. */
module Links {
  import opened Blocks
  import opened Names
  import BlockMap

  const ROOT := 1

  datatype Kind = Free | Dir | File | Device
  datatype Dirent = Dirent(inum: nat, name: seq<Byte>)
  datatype Node = Node(kind: Kind, nlink: int, ents: seq<Dirent>)

  ghost function Dot(): seq<Byte> { Key([46]) }
  ghost function DotDot(): seq<Byte> { Key([46, 46]) }

  function FreeNode(): Node { Node(Free, 0, []) }

  /** The size of an entry on disk, and the entries that fit in the largest file. */
  const DIRENT := 16
  const MAXENTS := BlockMap.MAXFILE * BSIZE / DIRENT

  /** nlink is a 16-bit short. */
  const SHORT_MAX := 32767
  function Up(n: int): int { if n == SHORT_MAX then -SHORT_MAX - 1 else n + 1 }
  function Down(n: int): int { if n == -SHORT_MAX - 1 then SHORT_MAX else n - 1 }

  predicate LinkedDir(x: Node) { x.kind == Dir && x.nlink > 0 }

  /** A directory as a map from names to inodes; entry numbers are their places. */
  ghost predicate Unique(ents: seq<Dirent>) {
    forall k, l :: 0 <= k < l < |ents| && ents[k].inum != 0 && ents[l].inum != 0 ==> ents[k].name != ents[l].name
  }

  ghost predicate Holds(ents: seq<Dirent>, name: seq<Byte>, inum: nat) {
    inum != 0 && exists k :: 0 <= k < |ents| && ents[k] == Dirent(inum, name)
  }

  ghost predicate Has(ents: seq<Dirent>, name: seq<Byte>) {
    exists k :: 0 <= k < |ents| && ents[k].inum != 0 && ents[k].name == name
  }

  // Counting entries

  /** How many of the entries from the third to the nth name an inode in `t`. */
  ghost function CountIn(ents: seq<Dirent>, t: set<nat>, n: nat): (c: nat)
    requires n <= |ents|
  {
    if n <= 2 then 0 else CountIn(ents, t, n - 1) + if ents[n - 1].inum in t then 1 else 0
  }

  ghost function Hits(ents: seq<Dirent>, t: set<nat>): (c: nat) {
    CountIn(ents, t, |ents|)
  }

  ghost function Share(x: Node, i: nat): (c: nat) {
    if LinkedDir(x) then Hits(x.ents, {i}) else 0
  }

  /** How many entries of linked directories name inode `i`, other than "." and "..". */
  ghost function Total(nodes: seq<Node>, i: nat, n: nat): (c: nat)
    requires n <= |nodes|
  {
    if n == 0 then 0 else Total(nodes, i, n - 1) + Share(nodes[n - 1], i)
  }

  ghost function Dirs(nodes: seq<Node>): (t: set<nat>)
    ensures forall i :: i in t <==> 0 <= i < |nodes| && nodes[i].kind == Dir
  {
    set i | 0 <= i < |nodes| && nodes[i].kind == Dir
  }

  // The invariant

  ghost predicate EntryOk(nodes: seq<Node>, d: nat, e: Dirent) {
    && e.inum < |nodes| && nodes[e.inum].kind != Free && nodes[e.inum].nlink > 0
    && e.inum != d && e.inum != ROOT
    && (nodes[e.inum].kind == Dir ==> |nodes[e.inum].ents| >= 2 && nodes[e.inum].ents[1] == Dirent(d, DotDot()))
  }

  /** "." and ".." come first, and names are stored names and differ. In a linked directory, entries
      name linked inodes other than the directory itself and the root, and a subdirectory's ".."
      names the directory; the root is its own parent. A directory without links, still open
      somewhere, has no entries left. */
  ghost predicate DirOk(nodes: seq<Node>, d: nat)
    requires d < |nodes|
  {
    var ents := nodes[d].ents;
    && 2 <= |ents| <= MAXENTS && ents[0] == Dirent(d, Dot())
    && ents[1].name == DotDot() && 0 < ents[1].inum < |nodes| && (d == ROOT ==> ents[1].inum == ROOT)
    && Unique(ents)
    && (forall k :: 0 <= k < |ents| ==> Key(ents[k].name) == ents[k].name)
    && (forall k :: 2 <= k < |ents| && ents[k].inum != 0 ==> LinkedDir(nodes[d]) && EntryOk(nodes, d, ents[k]))
  }

  ghost predicate CountOk(nodes: seq<Node>, i: nat)
    requires i < |nodes|
  {
    var x := nodes[i];
    && 0 <= x.nlink <= SHORT_MAX
    && (x.kind == Free ==> x == FreeNode())
    && (x.kind == File || x.kind == Device ==> x.nlink == Total(nodes, i, |nodes|))
    && (LinkedDir(x) ==> x.nlink == 1 + Hits(x.ents, Dirs(nodes)))
    && (LinkedDir(x) ==> Total(nodes, i, |nodes|) == if i == ROOT then 0 else 1)
  }

  ghost predicate Inv(nodes: seq<Node>) {
    && |nodes| > ROOT && nodes[0] == FreeNode() && LinkedDir(nodes[ROOT])
    && (forall d :: 0 <= d < |nodes| && nodes[d].kind == Dir ==> DirOk(nodes, d))
    && (forall i :: 0 <= i < |nodes| ==> CountOk(nodes, i))
  }

  // Counting lemmas

  function Put(ents: seq<Dirent>, k: nat, e: Dirent): (r: seq<Dirent>)
    requires k <= |ents|
  {
    if k < |ents| then ents[k := e] else ents + [e]
  }

  lemma {:induction false} CountSame(a: seq<Dirent>, b: seq<Dirent>, t: set<nat>, u: set<nat>, n: nat)
    requires n <= |a| && n <= |b|
    requires forall k :: 2 <= k < n ==> (a[k].inum in t <==> b[k].inum in u)
    ensures CountIn(a, t, n) == CountIn(b, u, n)
  {
    if n > 2 { CountSame(a, b, t, u, n - 1); }
  }

  lemma {:induction false} CountPut(a: seq<Dirent>, k: nat, e: Dirent, t: set<nat>, n: nat)
    requires 2 <= k < n <= |a|
    ensures CountIn(a[k := e], t, n) + (if a[k].inum in t then 1 else 0) ==
            CountIn(a, t, n) + (if e.inum in t then 1 else 0)
  {
    if n - 1 == k { CountSame(a, a[k := e], t, t, k); } else { CountPut(a, k, e, t, n - 1); }
  }

  lemma HitsPut(a: seq<Dirent>, k: nat, e: Dirent, t: set<nat>)
    requires 2 <= k <= |a|
    ensures Hits(Put(a, k, e), t) + (if k < |a| && a[k].inum in t then 1 else 0) ==
            Hits(a, t) + (if e.inum in t then 1 else 0)
  {
    if k < |a| { CountPut(a, k, e, t, |a|); } else { CountSame(a, a + [e], t, t, |a|); }
  }

  lemma {:induction false} CountNone(a: seq<Dirent>, t: set<nat>, n: nat)
    requires n <= |a|
    ensures CountIn(a, t, n) == 0 <==> forall k :: 2 <= k < n ==> a[k].inum !in t
  {
    if n > 2 { CountNone(a, t, n - 1); }
  }

  lemma {:induction false} TotalSame(a: seq<Node>, b: seq<Node>, i: nat, n: nat)
    requires n <= |a| && n <= |b| && forall j :: 0 <= j < n ==> Share(b[j], i) == Share(a[j], i)
    ensures Total(b, i, n) == Total(a, i, n)
  {
    if n > 0 { TotalSame(a, b, i, n - 1); }
  }

  lemma {:induction false} TotalChange(a: seq<Node>, b: seq<Node>, i: nat, d: nat, n: nat)
    requires d < n <= |a| && n <= |b| && forall j :: 0 <= j < n && j != d ==> Share(b[j], i) == Share(a[j], i)
    ensures Total(b, i, n) + Share(a[d], i) == Total(a, i, n) + Share(b[d], i)
  {
    if n - 1 == d { TotalSame(a, b, i, d); } else { TotalChange(a, b, i, d, n - 1); }
  }

  lemma {:induction false} ShareCounted(nodes: seq<Node>, i: nat, d: nat, n: nat)
    requires d < n <= |nodes|
    ensures Share(nodes[d], i) <= Total(nodes, i, n)
  {
    if n - 1 != d { ShareCounted(nodes, i, d, n - 1); }
  }

  /** An inode that is free, or has no links, is named nowhere. */
  lemma {:induction false} NotNamed(nodes: seq<Node>, i: nat, n: nat)
    requires Inv(nodes) && 0 < i < |nodes| && nodes[i].nlink == 0 && n <= |nodes|
    ensures Total(nodes, i, n) == 0
  {
    hide CountIn, Pad, Key, Unique, Dirs, Dot, DotDot;
    if n > 0 {
      NotNamed(nodes, i, n - 1);
      var x := nodes[n - 1];
      if LinkedDir(x) {
        assert DirOk(nodes, n - 1);
        CountNone(x.ents, {i}, |x.ents|);
      }
    }
  }

  lemma {:induction false} CountAtMost(a: seq<Dirent>, t: set<nat>, n: nat)
    requires 2 <= n <= |a|
    ensures CountIn(a, t, n) <= n - 2
  {
    if n > 2 { CountAtMost(a, t, n - 1); }
  }

  /** A directory is full long before its count of subdirectories could overflow. */
  lemma SubdirsFit(nodes: seq<Node>, d: nat)
    requires Inv(nodes) && d < |nodes| && LinkedDir(nodes[d])
    ensures nodes[d].nlink < MAXENTS < SHORT_MAX
  {
    assert DirOk(nodes, d) && CountOk(nodes, d);
    CountAtMost(nodes[d].ents, Dirs(nodes), |nodes[d].ents|);
  }

  lemma {:induction false} NamedBy(nodes: seq<Node>, i: nat, n: nat) returns (d: nat)
    requires n <= |nodes| && Total(nodes, i, n) > 0
    ensures d < n && LinkedDir(nodes[d]) && Hits(nodes[d].ents, {i}) > 0
  {
    if Share(nodes[n - 1], i) > 0 { d := n - 1; } else { d := NamedBy(nodes, i, n - 1); }
  }

  /** The parent of a linked directory is linked. */
  lemma ParentLinked(nodes: seq<Node>, d: nat)
    requires Inv(nodes) && d < |nodes| && LinkedDir(nodes[d])
    ensures |nodes[d].ents| >= 2 && nodes[d].ents[1].inum < |nodes| && LinkedDir(nodes[nodes[d].ents[1].inum])
  {
    assert DirOk(nodes, d) && CountOk(nodes, d);
    if d != ROOT {
      var p := NamedBy(nodes, d, |nodes|);
      assert DirOk(nodes, p);
      CountNone(nodes[p].ents, {d}, |nodes[p].ents|);
      var k :| 2 <= k < |nodes[p].ents| && nodes[p].ents[k].inum in {d};
      assert EntryOk(nodes, p, nodes[p].ents[k]);
    }
  }

  // Adding an entry

  /** Entry `k` of directory `d` is unused or just past the end, and `name` is not taken. */
  ghost predicate Vacant(nodes: seq<Node>, d: nat, k: nat, name: seq<Byte>) {
    && 0 < d < |nodes| && LinkedDir(nodes[d]) && 2 <= k <= |nodes[d].ents| && k < MAXENTS && Key(name) == name
    && (k < |nodes[d].ents| ==> nodes[d].ents[k].inum == 0) && !Has(nodes[d].ents, name)
  }

  /** What inode `i` becomes when an entry in `d` comes to name it: one more link on a file, or a
      new inode with one link, a directory with its "." and "..". */
  ghost predicate Gains(x: Node, y: Node, d: nat, i: nat) {
    || (x.kind in {File, Device} && 0 < x.nlink < SHORT_MAX && y == x.(nlink := x.nlink + 1))
    || (x == FreeNode() && y.kind != Free && y.nlink == 1
        && y.ents == if y.kind == Dir then [Dirent(i, Dot()), Dirent(d, DotDot())] else [])
  }

  ghost function Added(nodes: seq<Node>, d: nat, k: nat, name: seq<Byte>, i: nat, y: Node): (r: seq<Node>)
    requires 0 < d < |nodes| && i < |nodes| && k <= |nodes[d].ents|
  {
    var x := nodes[d];
    var up := if y.kind == Dir then 1 else 0;
    nodes[d := x.(ents := Put(x.ents, k, Dirent(i, name)), nlink := x.nlink + up)][i := y]
  }

  lemma AddedTotal(nodes: seq<Node>, d: nat, k: nat, name: seq<Byte>, i: nat, y: Node, j: nat)
    requires Inv(nodes) && Vacant(nodes, d, k, name) && 0 < i < |nodes| && i != d && Gains(nodes[i], y, d, i) && j != 0
    ensures Total(Added(nodes, d, k, name, i, y), j, |nodes|) == Total(nodes, j, |nodes|) + if j == i then 1 else 0
  {
    hide Total, Pad, Zeros, DirOk, Dirs;
    var r := Added(nodes, d, k, name, i, y);
    HitsPut(nodes[d].ents, k, Dirent(i, name), {j});
    TotalChange(nodes, r, j, d, |nodes|);
  }

  lemma AddedDir(nodes: seq<Node>, d: nat, k: nat, name: seq<Byte>, i: nat, y: Node, c: nat)
    requires Inv(nodes) && Vacant(nodes, d, k, name) && 0 < i < |nodes| && i != d && Gains(nodes[i], y, d, i)
    requires c < |nodes| && Added(nodes, d, k, name, i, y)[c].kind == Dir
    ensures DirOk(Added(nodes, d, k, name, i, y), c)
  {
    hide Total, CountIn, CountOk, Pad, Zeros;
    var r := Added(nodes, d, k, name, i, y);
    if c == i {
      KeyDots();
    } else {
      assert DirOk(nodes, c);
      forall l | 2 <= l < |r[c].ents| && r[c].ents[l].inum != 0 ensures EntryOk(r, c, r[c].ents[l]) {
        if c == d && l == k { assert r[c].ents[l].inum == i; } else { assert EntryOk(nodes, c, nodes[c].ents[l]); }
      }
    }
  }

  lemma KeyDots()
    ensures Key(Dot()) == Dot() && Key(DotDot()) == DotDot() && Dot() != DotDot()
  {
    PadTwice([46], DIRSIZ);
    PadTwice([46, 46], DIRSIZ);
    PadFirst([46], DIRSIZ);
    PadFirst([], DIRSIZ);
    PadHead([46], [46, 46], DIRSIZ);
    PadFirst([46][1..], DIRSIZ - 1);
    PadFirst([46, 46][1..], DIRSIZ - 1);
  }

  lemma AddedCount(nodes: seq<Node>, d: nat, k: nat, name: seq<Byte>, i: nat, y: Node, c: nat)
    requires Inv(nodes) && Vacant(nodes, d, k, name) && 0 < i < |nodes| && i != d && Gains(nodes[i], y, d, i)
    requires c < |nodes|
    ensures CountOk(Added(nodes, d, k, name, i, y), c)
  {
    hide Unique, Total, Pad, Zeros, Key, Dot, DotDot;
    var r := Added(nodes, d, k, name, i, y);
    assert CountOk(nodes, c) && CountOk(nodes, i);
    SubdirsFit(nodes, d);
    if c != 0 { AddedTotal(nodes, d, k, name, i, y, c); }
    if c == i {
      if nodes[i] == FreeNode() { NotNamed(nodes, i, |nodes|); }
    } else if LinkedDir(r[c]) {
      assert DirOk(nodes, c);
      CountSame(nodes[c].ents, nodes[c].ents, Dirs(nodes), Dirs(r), |nodes[c].ents|);
      if c == d { HitsPut(nodes[d].ents, k, Dirent(i, name), Dirs(r)); }
    }
  }

  /** Linking a file, and creating a file or directory, keep every count right. */
  lemma AddKeeps(nodes: seq<Node>, d: nat, k: nat, name: seq<Byte>, i: nat, y: Node)
    requires Inv(nodes) && Vacant(nodes, d, k, name) && 0 < i < |nodes| && i != d && Gains(nodes[i], y, d, i)
    ensures Inv(Added(nodes, d, k, name, i, y))
  {
    var r := Added(nodes, d, k, name, i, y);
    assert i != ROOT;
    forall c | 0 <= c < |r| && r[c].kind == Dir ensures DirOk(r, c) { AddedDir(nodes, d, k, name, i, y, c); }
    forall c | 0 <= c < |r| ensures CountOk(r, c) { AddedCount(nodes, d, k, name, i, y, c); }
  }

  // Removing an entry

  /** Entry `k` of directory `d` names `i`, which is not a directory or is an empty one. */
  ghost predicate Removable(nodes: seq<Node>, d: nat, k: nat, i: nat) {
    && 0 < d < |nodes| && LinkedDir(nodes[d]) && 2 <= k < |nodes[d].ents| && nodes[d].ents[k].inum == i
    && 0 < i < |nodes|
    && (nodes[i].kind == Dir ==> forall l :: 2 <= l < |nodes[i].ents| ==> nodes[i].ents[l].inum == 0)
  }

  ghost function Removed(nodes: seq<Node>, d: nat, k: nat, i: nat): (r: seq<Node>)
    requires Removable(nodes, d, k, i)
  {
    var x := nodes[d];
    var down := if nodes[i].kind == Dir then 1 else 0;
    nodes[d := x.(ents := x.ents[k := Dirent(0, Zeros(DIRSIZ))], nlink := x.nlink - down)]
         [i := nodes[i].(nlink := nodes[i].nlink - 1)]
  }

  lemma RemovedLinks(nodes: seq<Node>, d: nat, k: nat, i: nat)
    requires Inv(nodes) && Removable(nodes, d, k, i)
    ensures i != d && i != ROOT && nodes[i].nlink > 0 && nodes[i].kind != Free
    ensures nodes[i].kind == Dir ==> nodes[i].nlink == 1 && nodes[d].nlink > 1
  {
    assert DirOk(nodes, d) && EntryOk(nodes, d, nodes[d].ents[k]);
    if nodes[i].kind == Dir {
      CountNone(nodes[i].ents, Dirs(nodes), |nodes[i].ents|);
      CountNone(nodes[d].ents, Dirs(nodes), |nodes[d].ents|);
      assert CountOk(nodes, i) && CountOk(nodes, d);
    }
  }

  lemma RemovedTotal(nodes: seq<Node>, d: nat, k: nat, i: nat, j: nat)
    requires Inv(nodes) && Removable(nodes, d, k, i) && j != 0
    ensures Total(Removed(nodes, d, k, i), j, |nodes|) == Total(nodes, j, |nodes|) - if j == i then 1 else 0
  {
    hide Inv, Total, CountIn, Pad, Zeros;
    RemovedLinks(nodes, d, k, i);
    var r := Removed(nodes, d, k, i);
    HitsPut(nodes[d].ents, k, Dirent(0, Zeros(DIRSIZ)), {j});
    CountNone(nodes[i].ents, {j}, |nodes[i].ents|);
    TotalChange(nodes, r, j, d, |nodes|);
  }

  lemma RemovedDir(nodes: seq<Node>, d: nat, k: nat, i: nat, c: nat)
    requires Inv(nodes) && Removable(nodes, d, k, i)
    requires c < |nodes| && Removed(nodes, d, k, i)[c].kind == Dir
    ensures DirOk(Removed(nodes, d, k, i), c)
  {
    hide Total, CountIn, Pad;
    RemovedLinks(nodes, d, k, i);
    var r := Removed(nodes, d, k, i);
    assert DirOk(nodes, c);
    assert r[i].nlink == 0 ==> Total(r, i, |r|) == 0 by { RemovedTotal(nodes, d, k, i, i); assert CountOk(nodes, i); }
    ShareCounted(r, i, c, |r|);
    CountNone(r[c].ents, {i}, |r[c].ents|);
    PadTwice([], DIRSIZ);
    PadFirst([], DIRSIZ);
    forall l | 2 <= l < |r[c].ents| && r[c].ents[l].inum != 0 ensures EntryOk(r, c, r[c].ents[l]) {
      assert EntryOk(nodes, c, nodes[c].ents[l]);
    }
  }

  lemma RemovedCount(nodes: seq<Node>, d: nat, k: nat, i: nat, c: nat)
    requires Inv(nodes) && Removable(nodes, d, k, i) && c < |nodes|
    ensures CountOk(Removed(nodes, d, k, i), c)
  {
    hide DirOk, Total, CountIn, Pad, Zeros, Key;
    RemovedLinks(nodes, d, k, i);
    var r := Removed(nodes, d, k, i);
    assert CountOk(nodes, c);
    if c != 0 { RemovedTotal(nodes, d, k, i, c); }
    assert Dirs(r) == Dirs(nodes);
    if c == d { HitsPut(nodes[d].ents, k, Dirent(0, Zeros(DIRSIZ)), Dirs(nodes)); }
  }

  lemma RemoveKeeps(nodes: seq<Node>, d: nat, k: nat, i: nat)
    requires Inv(nodes) && Removable(nodes, d, k, i)
    ensures Inv(Removed(nodes, d, k, i))
  {
    var r := Removed(nodes, d, k, i);
    RemovedLinks(nodes, d, k, i);
    forall c | 0 <= c < |r| && r[c].kind == Dir ensures DirOk(r, c) { RemovedDir(nodes, d, k, i, c); }
    forall c | 0 <= c < |r| ensures CountOk(r, c) { RemovedCount(nodes, d, k, i, c); }
  }

  // Freeing an inode

  lemma FreeKeeps(nodes: seq<Node>, i: nat)
    requires Inv(nodes) && i < |nodes| && nodes[i].nlink == 0
    ensures Inv(nodes[i := FreeNode()])
  {
    var r := nodes[i := FreeNode()];
    forall c | 0 <= c < |r| && r[c].kind == Dir ensures DirOk(r, c) {
      assert DirOk(nodes, c);
      forall l | 2 <= l < |r[c].ents| && r[c].ents[l].inum != 0 ensures EntryOk(r, c, r[c].ents[l]) {
        assert EntryOk(nodes, c, nodes[c].ents[l]);
      }
    }
    forall c | 0 <= c < |r| ensures CountOk(r, c) {
      assert CountOk(nodes, c);
      TotalSame(nodes, r, c, |r|);
      if LinkedDir(r[c]) {
        assert DirOk(nodes, c);
        CountSame(r[c].ents, r[c].ents, Dirs(nodes), Dirs(r), |r[c].ents|);
      }
    }
  }
}
