/** Calls after which link counts are wrong: the two ways out of the invariant of Links. */
module LinkLimits {
  import opened Blocks
  import opened Names
  import opened Links
  import opened Directories

  lemma {:induction false} PadAt(s: seq<Byte>, n: nat, k: nat)
    requires k < n && forall i :: 0 <= i < |s| ==> s[i] != 0
    ensures Pad(s, n)[k] == if k < |s| then s[k] else 0
    decreases n
  {
    if s != [] && k > 0 { PadAt(s[1..], n - 1, k - 1); }
  }

  lemma KeyAt(s: seq<Byte>, k: nat)
    requires k < DIRSIZ && forall i :: 0 <= i < |s| ==> s[i] != 0
    ensures Key(s)[k] == if k < |s| then s[k] else 0
  {
    PadAt(s, DIRSIZ, k);
  }

  /** Nothing is in the way of a create in a directory with no more than "." and "..". */
  lemma OnlyDots(nodes: seq<Node>, d: nat, free: nat, name: seq<Byte>, kind: Kind)
    requires d < |nodes| && |nodes[d].ents| == 2 && nodes[d].ents[0].name != name && nodes[d].ents[1].name != name
    requires 0 < free < |nodes| && nodes[free].kind == Free
    ensures !Has(nodes[d].ents, name) && !NoSpace(nodes, d, kind, [true, true, true])
  {
  }

  /** A link that is lost: a directory is made and removed again while it is still in use, and a
      file is then created in it. */
  method LostLink() returns (t: Tree, d: nat, f: nat)
    ensures fresh(t) && d < |t.nodes| && f < |t.nodes| && !Inv(t.nodes)
    ensures t.nodes[d].kind == Dir && t.nodes[d].nlink == 0
    ensures t.nodes[f].kind == File && t.nodes[f].nlink == 1 && Holds(t.nodes[d].ents, Key([98]), f)
  {
    hide Inv, CountOk, Key, Dot, DotDot;
    DotKeys();
    KeyAt([46], 0);
    KeyAt([46, 46], 0);
    KeyAt([97], 0);
    KeyAt([98], 0);
    t := new Tree(2);
    var panics;
    OnlyDots(t.nodes, ROOT, 2, Key([97]), Dir);
    d, panics := t.Create(ROOT, [97], Dir, [true, true, true]);
    assert Bare(t.nodes, d);
    var r, _ := t.Unlink(ROOT, [97], false);
    OnlyDots(t.nodes, d, 5 - d, Key([98]), File);
    f, panics := t.Create(d, [98], File, [true, true, true]);
  }

  /** A name in a sound directory has one inode. */
  lemma OneInode(nodes: seq<Node>, d: nat, name: seq<Byte>, i: nat, j: nat)
    requires Inv(nodes) && d < |nodes| && nodes[d].kind == Dir
    requires Holds(nodes[d].ents, name, i) && Holds(nodes[d].ents, name, j)
    ensures i == j
  {
    assert DirOk(nodes, d);
  }

  /** A sound directory with no names but "." and ".." can be unlinked. */
  lemma BareAgain(nodes: seq<Node>, d: nat)
    requires Inv(nodes) && d < |nodes| && nodes[d].kind == Dir
    requires forall n, i: nat :: Holds(nodes[d].ents, n, i) ==> n == Dot() || n == DotDot()
    ensures Bare(nodes, d)
  {
    hide CountOk, Key, Dot, DotDot;
    assert DirOk(nodes, d);
    forall k | 2 <= k < |nodes[d].ents| ensures nodes[d].ents[k].inum == 0 {
      var e := nodes[d].ents[k];
      assert e.inum != 0 ==> Holds(nodes[d].ents, e.name, e.inum);
    }
  }

  /** A directory and one in it are made and removed again, the inner one while it is still in use.
      A create of ".." there panics, in a file system that is sound. */
  method LostParent() returns (t: Tree, b: nat, panics: bool)
    ensures fresh(t) && 0 < b < |t.nodes| && Inv(t.nodes) && t.nodes[b].kind == Dir
    ensures panics && NamesFree(t.nodes, b, DotDot())
  {
    hide Inv, CountOk, Key, Dot, DotDot;
    DotKeys();
    KeyAt([46], 0);
    KeyAt([46, 46], 0);
    KeyAt([97], 0);
    KeyAt([98], 0);
    t := new Tree(2);
    var a, r;
    ghost var i;
    OnlyDots(t.nodes, ROOT, 2, Key([97]), Dir);
    a, panics := t.Create(ROOT, [97], Dir, [true, true, true]);
    OnlyDots(t.nodes, a, 5 - a, Key([98]), Dir);
    b, panics := t.Create(a, [98], Dir, [true, true, true]);
    ghost var n1 := t.nodes;
    assert n1[b].ents[1] == Dirent(a, DotDot());
    assert Bare(t.nodes, b);
    r, i := t.Unlink(a, [98], false);
    OneInode(n1, a, Key([98]), i, b);
    BareAgain(t.nodes, a);
    ghost var n2 := t.nodes;
    assert n2[b].ents == n1[b].ents;
    r, i := t.Unlink(ROOT, [97], true);
    OneInode(n2, ROOT, Key([97]), i, a);
    assert t.nodes[b].ents[1] == Dirent(a, DotDot()) && t.nodes[a].kind == Free;
    assert Holds(t.nodes[b].ents, DotDot(), a);
    a, panics := t.Create(b, [46, 46], File, [true, true, true]);
  }

  // A count at its limit

  /** Many different names. */
  const NAMES := 40000
  ghost function Nth(j: nat): (s: seq<Byte>)
    requires j < NAMES
  {
    [1 + j / 200, 1 + j % 200, 1]
  }

  lemma NthDiffer(j: nat, k: nat)
    requires j < NAMES && k < NAMES && j != k
    ensures Key(Nth(j)) != Key(Nth(k))
  {
    KeyAt(Nth(j), 0);
    KeyAt(Nth(k), 0);
    KeyAt(Nth(j), 1);
    KeyAt(Nth(k), 1);
    assert j == j / 200 * 200 + j % 200 && k == k / 200 * 200 + k % 200;
  }

  lemma NthNew(j: nat)
    requires j < NAMES
    ensures Key(Nth(j)) != Dot() && Key(Nth(j)) != DotDot() && Key(Nth(j)) != Key([100])
  {
    KeyAt(Nth(j), 2);
    KeyAt([46], 2);
    KeyAt([46, 46], 2);
    KeyAt([100], 2);
  }

  /** None of the names from the nth on is taken. */
  ghost predicate Unused(ents: seq<Dirent>, n: nat) {
    forall j :: n <= j < NAMES ==> !Has(ents, Key(Nth(j)))
  }

  const HALF := 17000

  /** A root, a directory in it, and a file with `n` links from the two. */
  ghost predicate Linked(nodes: seq<Node>, n: nat) {
    && Inv(nodes) && |nodes| == 4 && LinkedDir(nodes[1]) && LinkedDir(nodes[2]) && nodes[3] == Node(File, n, [])
    && |nodes[1].ents| == 3 + (if n < HALF then n else HALF) && Unused(nodes[1].ents, n)
    && |nodes[2].ents| == 2 + (if n < HALF then 0 else n - HALF) && Unused(nodes[2].ents, n)
  }

  lemma FirstNames()
    ensures Key(Key([100])) == Key([100]) && Key([100]) != Dot() && Key([100]) != DotDot()
    ensures Key(Key(Nth(0))) == Key(Nth(0))
  {
    KeyTwice([100]);
    KeyTwice(Nth(0));
    KeyAt([100], 0);
    KeyAt([46], 0);
    KeyAt([46, 46], 0);
  }

  /** A root with a directory in it. */
  lemma WithDir() returns (nodes: seq<Node>)
    ensures Inv(nodes)
    ensures var dots := [Dirent(ROOT, Dot()), Dirent(ROOT, DotDot())];
            nodes == [FreeNode(), Node(Dir, 2, dots + [Dirent(2, Key([100]))]),
                Node(Dir, 1, [Dirent(2, Dot()), dots[1]]), FreeNode()]
  {
    hide Inv, Key, Dot, DotDot;
    FirstNames();
    var dots := [Dirent(ROOT, Dot()), Dirent(ROOT, DotDot())];
    var empty := [FreeNode(), Node(Dir, 1, dots), FreeNode(), FreeNode()];
    OnlyRoot(empty);
    var dir := Node(Dir, 1, [Dirent(2, Dot()), Dirent(ROOT, DotDot())]);
    AddKeeps(empty, ROOT, 2, Key([100]), 2, dir);
    nodes := Added(empty, ROOT, 2, Key([100]), 2, dir);
  }

  lemma First() returns (nodes: seq<Node>)
    ensures Linked(nodes, 1)
  {
    hide Inv, Key, Dot, DotDot, Nth;
    FirstNames();
    NthNew(0);
    var one := WithDir();
    AddKeeps(one, ROOT, 3, Key(Nth(0)), 3, Node(File, 1, []));
    nodes := Added(one, ROOT, 3, Key(Nth(0)), 3, Node(File, 1, []));
    forall j | 1 <= j < NAMES ensures !Has(nodes[1].ents, Key(Nth(j))) && !Has(nodes[2].ents, Key(Nth(j))) {
      NthNew(j);
      NthDiffer(0, j);
    }
  }

  lemma More(nodes: seq<Node>, n: nat) returns (r: seq<Node>)
    requires Linked(nodes, n) && 1 <= n < SHORT_MAX
    ensures Linked(r, n + 1)
  {
    hide Inv, Key;
    var d := if n < HALF then 1 else 2;
    KeyTwice(Nth(n));
    AddKeeps(nodes, d, |nodes[d].ents|, Key(Nth(n)), 3, Node(File, n + 1, []));
    r := Added(nodes, d, |nodes[d].ents|, Key(Nth(n)), 3, Node(File, n + 1, []));
    forall j | n + 1 <= j < NAMES ensures !Has(r[1].ents, Key(Nth(j))) && !Has(r[2].ents, Key(Nth(j))) {
      NthDiffer(n, j);
      assert !Has(nodes[1].ents, Key(Nth(j))) && !Has(nodes[2].ents, Key(Nth(j)));
    }
  }

  lemma {:induction false} Many(n: nat) returns (nodes: seq<Node>)
    requires 1 <= n <= SHORT_MAX
    ensures Linked(nodes, n)
  {
    hide Linked;
    if n == 1 {
      nodes := First();
    } else {
      nodes := Many(n - 1);
      nodes := More(nodes, n - 1);
    }
  }

  /** The other way out: a sound file system, in which a file has as many links as `nlink` can count,
      and a directory with room for one more; sys_link then breaks the invariant. */
  lemma CountAtLimit() returns (nodes: seq<Node>, ip: nat, dp: nat, name: seq<Byte>)
    ensures Inv(nodes) && 0 < ip < |nodes| && nodes[ip].kind == File && nodes[ip].nlink == SHORT_MAX
    ensures 0 < dp < |nodes| && LinkedDir(nodes[dp]) && !Has(nodes[dp].ents, Key(name)) && CanAdd(nodes[dp].ents, true)
    ensures var b := nodes[ip := nodes[ip].(nlink := Up(SHORT_MAX))];
            !Inv(b[dp := b[dp].(ents := b[dp].ents + [Dirent(ip, Key(name))])])
  {
    hide Inv, Key;
    nodes := Many(SHORT_MAX);
    ip, dp, name := 3, 2, Nth(SHORT_MAX);
    var b := nodes[ip := nodes[ip].(nlink := Up(SHORT_MAX))];
    Overflown(b[dp := b[dp].(ents := b[dp].ents + [Dirent(ip, Key(name))])], ip);
  }
}
