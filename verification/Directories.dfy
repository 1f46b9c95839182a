/** Directories and the system calls that change them (kernel/fs.c, kernel/sysfile.c): every one
    of them, failing or not, keeps names unique and link counts right. */
module Directories {
  import opened Blocks
  import opened Names
  import opened Links
  import BlockMap

  /** Names are stored names, each used once, and no more than a file can hold. */
  ghost predicate Sound(ents: seq<Dirent>) {
    |ents| <= MAXENTS && Unique(ents) && forall k :: 0 <= k < |ents| ==> Key(ents[k].name) == ents[k].name
  }

  ghost predicate Spare(ents: seq<Dirent>) {
    exists k :: 0 <= k < |ents| && ents[k].inum == 0
  }

  /** There is an unused entry, or the directory can grow: it is no largest file and there is `room`. */
  ghost predicate CanAdd(ents: seq<Dirent>, room: bool) {
    Spare(ents) || (room && |ents| < MAXENTS)
  }

  /** Every name but `name` means what it meant. */
  ghost predicate OtherNames(a: seq<Dirent>, b: seq<Dirent>, name: seq<Byte>) {
    forall n, i :: n != name ==> (Holds(b, n, i) <==> Holds(a, n, i))
  }

  ghost predicate OtherNodes(a: seq<Node>, b: seq<Node>, d: nat, i: nat) {
    |a| == |b| && forall j :: 0 <= j < |a| && j != d && j != i ==> b[j] == a[j]
  }

  class Tree {
    var nodes: seq<Node>

    /** The empty file system: a root directory that is its own parent, and `n` free inodes. */
    constructor (n: nat)
      ensures Inv(nodes) && |nodes| == 2 + n && (forall i :: 0 <= i < |nodes| && i != ROOT ==> nodes[i] == FreeNode())
      ensures nodes[ROOT] == Node(Dir, 1, [Dirent(ROOT, Dot()), Dirent(ROOT, DotDot())])
    {
      var dot := Strncpy([46]);
      var dotdot := Strncpy([46, 46]);
      nodes := [FreeNode(), Node(Dir, 1, [Dirent(ROOT, dot), Dirent(ROOT, dotdot)])] + seq(n, _ => FreeNode());
      new;
      OnlyRoot(nodes);
    }

    /** dirlookup; zero if the name is not there. */
    method Dirlookup(d: nat, name: seq<Byte>) returns (inum: nat, off: nat)
      requires d < |nodes| && nodes[d].kind == Dir && Sound(nodes[d].ents)
      ensures inum == 0 <==> !Has(nodes[d].ents, Key(name))
      ensures inum != 0 ==> off < |nodes[d].ents| && nodes[d].ents[off] == Dirent(inum, Key(name))
    {
      hide Key;
      var ents := nodes[d].ents;
      off := 0;
      while off < |ents|
        invariant 0 <= off <= |ents|
        invariant forall k :: 0 <= k < off && ents[k].inum != 0 ==> ents[k].name != Key(name)
      {
        if ents[off].inum != 0 {
          var same := Namecmp(name, ents[off].name);
          if same {
            return ents[off].inum, off;
          }
        }
        off := off + 1;
      }
      return 0, 0;
    }

    /** dirlink: the name is added in the first unused entry, or after the last if writei can make
        the directory longer: it is no largest file, and the disk has `room`. It fails, changing
        nothing, if the name is taken. */
    method Dirlink(d: nat, name: seq<Byte>, inum: nat, room: bool) returns (r: int, ghost k: nat)
      requires d < |nodes| && nodes[d].kind == Dir && Sound(nodes[d].ents) && inum != 0
      modifies this
      ensures r == 0 || r == -1
      ensures r == 0 <==> !Has(old(nodes)[d].ents, Key(name)) && CanAdd(old(nodes)[d].ents, room)
      ensures r == -1 ==> nodes == old(nodes)
      ensures r == 0 ==>
                && k <= |old(nodes)[d].ents| && k < MAXENTS
                && (k < |old(nodes)[d].ents| ==> old(nodes)[d].ents[k].inum == 0)
                && (forall l :: 0 <= l < k ==> old(nodes)[d].ents[l].inum != 0)
                && nodes == old(nodes)[d := old(nodes)[d].(ents := Put(old(nodes)[d].ents, k, Dirent(inum, Key(name))))]
    {
      hide Key;
      k := 0;
      var ip, _ := Dirlookup(d, name);
      if ip != 0 {
        return -1, 0;
      }
      var ents := nodes[d].ents;
      var off := 0;
      while off < |ents| && ents[off].inum != 0
        invariant 0 <= off <= |ents| && forall l :: 0 <= l < off ==> ents[l].inum != 0
      {
        off := off + 1;
      }
      if off == |ents| && (!room || (off + 1) * DIRENT > BlockMap.MAXFILE * BSIZE) {
        return -1, 0;
      }
      var stored := Strncpy(name);
      nodes := nodes[d := nodes[d].(ents := Put(ents, off, Dirent(inum, stored)))];
      return 0, off;
    }

    /** isdirempty: nothing but "." and "..". */
    method Isdirempty(d: nat) returns (empty: bool)
      requires d < |nodes|
      ensures empty <==> forall k :: 2 <= k < |nodes[d].ents| ==> nodes[d].ents[k].inum == 0
    {
      var off := 2;
      while off < |nodes[d].ents|
        invariant 2 <= off && forall k :: 2 <= k < off && k < |nodes[d].ents| ==> nodes[d].ents[k].inum == 0
      {
        if nodes[d].ents[off].inum != 0 {
          return false;
        }
        off := off + 1;
      }
      return true;
    }

    /** ialloc: the first free inode, or zero. */
    method Ialloc(kind: Kind) returns (i: nat)
      requires |nodes| > 0
      modifies this
      ensures i == 0 ==> nodes == old(nodes) && forall j :: 1 <= j < |nodes| ==> nodes[j].kind != Free
      ensures i != 0 ==>
                && i < |nodes| == |old(nodes)| && old(nodes)[i].kind == Free
                && (forall j :: 1 <= j < i ==> old(nodes)[j].kind != Free)
                && nodes == old(nodes)[i := Node(kind, 0, [])]
    {
      i := 1;
      while i < |nodes|
        invariant 1 <= i <= |nodes| && nodes == old(nodes) && forall j :: 1 <= j < i ==> nodes[j].kind != Free
      {
        if nodes[i].kind == Free {
          nodes := nodes[i := Node(kind, 0, [])];
          return i;
        }
        i := i + 1;
      }
      return 0;
    }

    /** iput: the last reference to an inode without links frees it. */
    method Iput(i: nat, last: bool)
      requires i < |nodes|
      modifies this
      ensures nodes == if last && old(nodes)[i].nlink == 0 then old(nodes)[i := FreeNode()] else old(nodes)
      ensures Inv(old(nodes)) ==> Inv(nodes)
    {
      hide Inv;
      if last && nodes[i].nlink == 0 {
        if Inv(nodes) { FreeKeeps(nodes, i); }
        nodes := nodes[i := FreeNode()];
      }
    }

    /** The "." and ".." of a new directory. */
    method Dots(ip: nat, dp: nat, room: seq<bool>) returns (ok: bool)
      requires 0 < ip < |nodes| && dp != 0 && nodes[ip] == Node(Dir, 1, []) && |room| == 3
      modifies this
      ensures |nodes| == |old(nodes)| && nodes == old(nodes)[ip := nodes[ip]]
      ensures ok <==> room[0] && room[1]
      ensures ok ==> nodes[ip] == Node(Dir, 1, [Dirent(ip, Dot()), Dirent(dp, DotDot())])
    {
      hide Key, Dot, DotDot, Sound, Has, CanAdd;
      DotKeys();
      NewDir(ip);
      var r, _ := Dirlink(ip, [46], ip, room[0]);
      if r < 0 {
        return false;
      }
      assert nodes[ip].ents == [Dirent(ip, Dot())];
      var q, _ := Dirlink(ip, [46, 46], dp, room[1]);
      return q == 0;
    }

    /** create in directory `dp`, or nowhere (zero) if nameiparent failed. `room` says whether the
        three directory writes it may need find space. Zero, and no change, if it fails: also when
        the name is taken, except that an open of a file or device creates nothing and finds it. It
        panics, in ilock, if the name is ".." in a removed directory whose parent is gone too. */
    method Create(dp: nat, name: seq<Byte>, kind: Kind, room: seq<bool>) returns (ip: nat, panics: bool)
      requires Inv(nodes) && dp < |nodes| && (dp != 0 ==> nodes[dp].kind == Dir) && kind != Free && |room| == 3
      modifies this
      ensures |nodes| == |old(nodes)| && ip < |nodes| && (ip == 0 ==> nodes == old(nodes))
      ensures dp == 0 || panics ==> ip == 0
      ensures panics <==> dp != 0 && NamesFree(old(nodes), dp, Key(name))
      ensures panics ==> old(nodes)[dp].nlink == 0 && Key(name) == DotDot()
      ensures dp != 0 && Has(old(nodes)[dp].ents, Key(name)) ==>
                nodes == old(nodes) && (panics || Finds(nodes, dp, Key(name), kind, ip))
      ensures dp != 0 && !Has(old(nodes)[dp].ents, Key(name)) ==> (ip == 0 <==> NoSpace(old(nodes), dp, kind, room))
      ensures dp != 0 && !Has(old(nodes)[dp].ents, Key(name)) && ip != 0 ==>
                Made(old(nodes), nodes, dp, Key(name), kind, ip)
      ensures Inv(nodes) <==> !Loses(old(nodes), dp, Key(name), kind, room)
      ensures Loses(old(nodes), dp, Key(name), kind, room) ==> !CountOk(nodes, ip) || !CountOk(nodes, dp)
    {
      hide Inv, DirOk, CountOk, Total, Key, DotDot, NoSpace;
      panics := false;
      if dp == 0 {
        return 0, false;
      }
      DirSound(nodes, dp);
      var j, off := Dirlookup(dp, name);
      if j != 0 {
        Found(nodes, dp, off);
        assert Holds(nodes[dp].ents, Key(name), j);
        if nodes[j].kind == Free {
          FoundFree(nodes, dp, off);
          return 0, true;
        }
        if kind == File && nodes[j].kind in {File, Device} {
          return j, false;
        }
        return 0, false;
      }
      Bounds(nodes, dp);
      ip := Make(dp, name, kind, room);
    }

    /** create, once the name is known not to be taken. */
    method Make(dp: nat, name: seq<Byte>, kind: Kind, room: seq<bool>) returns (ip: nat)
      requires Inv(nodes) && 0 < dp < |nodes| && nodes[dp].kind == Dir && kind != Free && |room| == 3
      requires !Has(nodes[dp].ents, Key(name))
      modifies this
      ensures |nodes| == |old(nodes)| && ip < |nodes|
      ensures ip == 0 <==> NoSpace(old(nodes), dp, kind, room)
      ensures if ip == 0 then nodes == old(nodes) else Made(old(nodes), nodes, dp, Key(name), kind, ip)
      ensures Inv(nodes) <==> ip == 0 || old(nodes)[dp].nlink > 0
      ensures ip != 0 && old(nodes)[dp].nlink == 0 ==> !CountOk(nodes, ip) || !CountOk(nodes, dp)
    {
      hide Inv, DirOk, CountOk, Total, Key, Made;
      DotKeys();
      DirSound(nodes, dp);
      NodesShape(nodes);
      ip := Ialloc(kind);
      if ip == 0 {
        return 0;
      }
      FreeShape(old(nodes), ip);
      nodes := nodes[ip := nodes[ip].(nlink := 1)];
      var ok := true;
      if kind == Dir {
        ok := Dots(ip, dp, room);
      }
      ghost var y, k := nodes[ip], 0;
      if ok {
        var r;
        r, k := Dirlink(dp, name, ip, room[2]);
        ok := r == 0;
      }
      if !ok {
        nodes := nodes[ip := nodes[ip].(nlink := 0)];
        Iput(ip, true);
        assert nodes == old(nodes);
        return 0;
      }
      if kind == Dir {
        nodes := nodes[dp := nodes[dp].(nlink := Up(nodes[dp].nlink))];
      }
      Creates(old(nodes), nodes, dp, k, name, ip, y);
    }

    /** sys_link of inode `ip` (zero if namei failed) as `name` in `dp` (zero if nameiparent
        failed). The count goes up before the entry is made and down again if that fails. */
    method Link(ip: nat, dp: nat, name: seq<Byte>, room: bool) returns (r: int)
      requires Inv(nodes) && ip < |nodes| && dp < |nodes| && (dp != 0 ==> nodes[dp].kind == Dir)
      requires ip != 0 ==> nodes[ip].kind != Free && (nodes[ip].kind != Dir ==> nodes[ip].nlink > 0)
      modifies this
      ensures r == 0 || (r == -1 && nodes == old(nodes))
      ensures r == 0 <==> && ip != 0 && dp != 0 && old(nodes)[ip].kind != Dir
                          && !Has(old(nodes)[dp].ents, Key(name)) && CanAdd(old(nodes)[dp].ents, room)
      ensures r == 0 ==>
                && OtherNodes(old(nodes), nodes, dp, ip)
                && nodes[ip] == old(nodes)[ip].(nlink := Up(old(nodes)[ip].nlink))
                && nodes[dp] == old(nodes)[dp].(ents := nodes[dp].ents)
                && Holds(nodes[dp].ents, Key(name), ip) && OtherNames(old(nodes)[dp].ents, nodes[dp].ents, Key(name))
      ensures Inv(nodes) <==> r == -1 || (0 < old(nodes)[dp].nlink && old(nodes)[ip].nlink < SHORT_MAX)
      ensures r == 0 && old(nodes)[dp].nlink == 0 ==> !CountOk(nodes, ip) || !CountOk(nodes, dp)
    {
      hide Inv, DirOk, CountOk, Total, Key;
      if ip == 0 || nodes[ip].kind == Dir {
        return -1;
      }
      nodes := nodes[ip := nodes[ip].(nlink := Up(nodes[ip].nlink))];
      var done := -1;
      ghost var k := 0;
      if dp != 0 {
        DirSound(old(nodes), dp);
        done, k := Dirlink(dp, name, ip, room);
      }
      if done < 0 {
        nodes := nodes[ip := nodes[ip].(nlink := Down(nodes[ip].nlink))];
        Bounds(old(nodes), ip);
        assert nodes == old(nodes);
        return -1;
      }
      Linked(old(nodes), nodes, dp, k, name, ip);
      return 0;
    }

    /** sys_unlink of `name` in `dp`: "." and "..", missing names and directories with entries are
        refused. The inode is freed if it has no link left and `last`, no other reference. */
    method Unlink(dp: nat, name: seq<Byte>, last: bool) returns (r: int, ghost ip: nat)
      requires Inv(nodes) && dp < |nodes| && (dp != 0 ==> nodes[dp].kind == Dir)
      modifies this
      ensures r == 0 || (r == -1 && nodes == old(nodes))
      ensures r == 0 <==> dp != 0 && Key(name) != Dot() && Key(name) != DotDot() &&
                          exists i: nat :: Holds(old(nodes)[dp].ents, Key(name), i) && Bare(old(nodes), i)
      ensures r == 0 ==> Holds(old(nodes)[dp].ents, Key(name), ip) && Unmade(old(nodes), nodes, dp, Key(name), ip, last)
      ensures dp != 0 && Key(name) != Dot() && Key(name) != DotDot() ==> NamesLinked(old(nodes), dp, Key(name))
      ensures Inv(nodes)
    {
      hide Inv, DirOk, CountOk, Total, Key, Dot, DotDot;
      ip := 0;
      if dp == 0 {
        return -1, 0;
      }
      DotKeys();
      var dot := Namecmp(name, [46]);
      var dotdot := Namecmp(name, [46, 46]);
      if dot || dotdot {
        return -1, 0;
      }
      DirSound(nodes, dp);
      NotDots(nodes, dp, Key(name));
      var i, off := Dirlookup(dp, name);
      if i == 0 {
        return -1, 0;
      }
      Found(nodes, dp, off);
      ip := i;
      if nodes[i].kind == Dir {
        var empty := Isdirempty(i);
        if !empty {
          return -1, i;
        }
      }
      Unlinks(nodes, dp, off, name, i);
      nodes := nodes[dp := nodes[dp].(ents := nodes[dp].ents[off := Dirent(0, Blank())])];
      if nodes[i].kind == Dir {
        nodes := nodes[dp := nodes[dp].(nlink := Down(nodes[dp].nlink))];
      }
      nodes := nodes[i := nodes[i].(nlink := Down(nodes[i].nlink))];
      assert nodes == Removed(old(nodes), dp, off, i);
      Iput(i, last);
      Unlinked(old(nodes), dp, off, name, i, last);
      return 0, i;
    }
  }

  function Blank(): (r: seq<Byte>)
    ensures r == Zeros(DIRSIZ)
  {
    seq(DIRSIZ, _ => 0)
  }

  /** Only an open with create of a file or device finds the inode that has the name. */
  ghost predicate Finds(nodes: seq<Node>, dp: nat, name: seq<Byte>, kind: Kind, ip: nat)
    requires dp < |nodes|
  {
    exists j :: 0 <= j < |nodes| && Holds(nodes[dp].ents, name, j)
                && ip == if kind == File && nodes[j].kind in {File, Device} then j else 0
  }

  ghost predicate NoSpace(nodes: seq<Node>, dp: nat, kind: Kind, room: seq<bool>)
    requires dp < |nodes| && |room| == 3
  {
    || (kind == Dir && !(room[0] && room[1])) || !CanAdd(nodes[dp].ents, room[2])
    || forall j :: 1 <= j < |nodes| ==> nodes[j].kind != Free
  }

  /** The name is that of an inode with a link, or of none: what unlink tests before it counts down. */
  ghost predicate NamesLinked(nodes: seq<Node>, dp: nat, name: seq<Byte>)
    requires dp < |nodes|
  {
    forall i: nat :: Holds(nodes[dp].ents, name, i) ==> i < |nodes| && nodes[i].nlink >= 1
  }

  /** The name is that of an inode that is free. */
  ghost predicate NamesFree(nodes: seq<Node>, dp: nat, name: seq<Byte>)
    requires dp < |nodes|
  {
    exists j :: 0 <= j < |nodes| && Holds(nodes[dp].ents, name, j) && nodes[j].kind == Free
  }

  /** A create that makes an entry in a directory without links. */
  ghost predicate Loses(nodes: seq<Node>, dp: nat, name: seq<Byte>, kind: Kind, room: seq<bool>)
    requires dp < |nodes| && |room| == 3
  {
    dp != 0 && nodes[dp].nlink == 0 && !Has(nodes[dp].ents, name) && !NoSpace(nodes, dp, kind, room)
  }

  /** Inode `i` exists and is not a directory with entries of its own. */
  ghost predicate Bare(nodes: seq<Node>, i: nat) {
    i < |nodes| && (nodes[i].kind == Dir ==> forall k :: 2 <= k < |nodes[i].ents| ==> nodes[i].ents[k].inum == 0)
  }

  /** A successful create: a new inode with one link, named in `dp`, which gains a link from the
      ".." of a new directory; no other inode and no other name has changed. */
  ghost predicate Made(a: seq<Node>, b: seq<Node>, dp: nat, name: seq<Byte>, kind: Kind, ip: nat) {
    && 0 < ip < |a| && 0 < dp < |a| && ip != dp && a[ip] == FreeNode() && OtherNodes(a, b, dp, ip)
    && b[ip] == Node(kind, 1, if kind == Dir then [Dirent(ip, Dot()), Dirent(dp, DotDot())] else [])
    && b[dp].kind == a[dp].kind && b[dp].nlink == (if kind == Dir then Up(a[dp].nlink) else a[dp].nlink)
    && !Has(a[dp].ents, name) && Holds(b[dp].ents, name, ip) && OtherNames(a[dp].ents, b[dp].ents, name)
  }

  /** A successful unlink. */
  ghost predicate Unmade(a: seq<Node>, b: seq<Node>, dp: nat, name: seq<Byte>, ip: nat, last: bool) {
    && dp < |a| && ip < |a| && OtherNodes(a, b, dp, ip)
    && b[ip] == (if last && a[ip].nlink == 1 then FreeNode() else a[ip].(nlink := a[ip].nlink - 1))
    && ip != dp && b[dp].kind == a[dp].kind
    && b[dp].nlink == (if a[ip].kind == Dir then a[dp].nlink - 1 else a[dp].nlink)
    && !Has(b[dp].ents, name) && OtherNames(a[dp].ents, b[dp].ents, name)
  }

  lemma DotKeys()
    ensures Dot() == Key([46]) && DotDot() == Key([46, 46])
  {
  }

  /** Adding "." and ".." to an empty directory. */
  lemma NewDir(ip: nat)
    requires ip != 0
    ensures Sound([]) && !Has([], Dot()) && Sound([Dirent(ip, Dot())]) && !Has([Dirent(ip, Dot())], DotDot())
    ensures forall room :: CanAdd([], room) == CanAdd([Dirent(ip, Dot())], room) == room
  {
    hide Key, Dot, DotDot;
    KeyDots();
  }

  lemma NodesShape(nodes: seq<Node>)
    requires Inv(nodes)
    ensures |nodes| > ROOT && nodes[0] == FreeNode() && LinkedDir(nodes[ROOT])
  {
  }

  lemma FreeShape(nodes: seq<Node>, i: nat)
    requires Inv(nodes) && i < |nodes| && nodes[i].kind == Free
    ensures nodes[i] == FreeNode()
  {
    assert CountOk(nodes, i);
  }

  lemma Bounds(nodes: seq<Node>, i: nat)
    requires Inv(nodes) && i < |nodes|
    ensures 0 <= nodes[i].nlink <= SHORT_MAX
  {
    assert CountOk(nodes, i);
  }

  lemma DirSound(nodes: seq<Node>, d: nat)
    requires Inv(nodes) && d < |nodes| && nodes[d].kind == Dir
    ensures Sound(nodes[d].ents) && |nodes[d].ents| >= 2 && nodes[d].ents[0].inum != 0 && nodes[d].ents[1].inum != 0
  {
    assert DirOk(nodes, d);
  }

  /** Every live entry names an inode of the disk. */
  lemma Found(nodes: seq<Node>, d: nat, off: nat)
    requires Inv(nodes) && d < |nodes| && nodes[d].kind == Dir && off < |nodes[d].ents| && nodes[d].ents[off].inum != 0
    ensures nodes[d].ents[off].inum < |nodes|
    ensures forall j :: Holds(nodes[d].ents, nodes[d].ents[off].name, j) <==> j == nodes[d].ents[off].inum
  {
    hide Total, CountIn, CountOk, Dirs, Pad, Key, Dot, DotDot;
    assert DirOk(nodes, d);
    if off >= 2 { assert EntryOk(nodes, d, nodes[d].ents[off]); }
  }

  /** In a linked directory every name is that of an inode that is not free; in one without links
      ".." may be the exception. */
  lemma FoundFree(nodes: seq<Node>, d: nat, off: nat)
    requires Inv(nodes) && d < |nodes| && nodes[d].kind == Dir && off < |nodes[d].ents| && nodes[d].ents[off].inum != 0
    requires nodes[d].ents[off].inum < |nodes| && nodes[nodes[d].ents[off].inum].kind == Free
    ensures nodes[d].nlink == 0 && nodes[d].ents[off].name == DotDot()
  {
    hide Total, CountIn, Dirs, Unique, Pad, Key, Dot, DotDot;
    assert DirOk(nodes, d) && CountOk(nodes, d);
    if LinkedDir(nodes[d]) { ParentLinked(nodes, d); }
  }

  lemma NotDots(nodes: seq<Node>, d: nat, name: seq<Byte>)
    requires Inv(nodes) && d < |nodes| && nodes[d].kind == Dir && name != Dot() && name != DotDot()
    ensures NamesLinked(nodes, d, name)
  {
    hide CountOk, Key, Dot, DotDot;
    assert DirOk(nodes, d);
    forall i: nat | Holds(nodes[d].ents, name, i) ensures i < |nodes| && nodes[i].nlink >= 1 {
      var k :| 0 <= k < |nodes[d].ents| && nodes[d].ents[k] == Dirent(i, name);
      assert EntryOk(nodes, d, nodes[d].ents[k]);
    }
  }

  lemma PutNames(ents: seq<Dirent>, k: nat, e: Dirent)
    requires k <= |ents| && (k < |ents| ==> ents[k].inum == 0) && e.inum != 0 && !Has(ents, e.name)
    ensures Holds(Put(ents, k, e), e.name, e.inum) && OtherNames(ents, Put(ents, k, e), e.name)
  {
    var r := Put(ents, k, e);
    assert r[k] == e;
    forall n, i | n != e.name ensures Holds(r, n, i) <==> Holds(ents, n, i) {
      if Holds(ents, n, i) {
        var l :| 0 <= l < |ents| && ents[l] == Dirent(i, n);
        assert r[l] == ents[l];
      }
    }
  }

  lemma ClearNames(ents: seq<Dirent>, k: nat)
    requires k < |ents| && ents[k].inum != 0 && Unique(ents)
    ensures !Has(ents[k := Dirent(0, Zeros(DIRSIZ))], ents[k].name)
    ensures OtherNames(ents, ents[k := Dirent(0, Zeros(DIRSIZ))], ents[k].name)
  {
    var r := ents[k := Dirent(0, Zeros(DIRSIZ))];
    forall n, i | n != ents[k].name ensures Holds(r, n, i) <==> Holds(ents, n, i) {
      if Holds(ents, n, i) {
        var l :| 0 <= l < |ents| && ents[l] == Dirent(i, n);
        assert r[l] == ents[l];
      }
    }
  }

  lemma KeyTwice(name: seq<Byte>)
    ensures Key(Key(name)) == Key(name)
  {
    PadTwice(name, DIRSIZ);
  }

  lemma Broken(nodes: seq<Node>, i: nat, d: nat)
    requires i < |nodes| && d < |nodes| && (!CountOk(nodes, i) || !CountOk(nodes, d))
    ensures !Inv(nodes)
  {
  }

  /** The invariant does not survive a count that does not fit. */
  lemma Overflown(nodes: seq<Node>, i: nat)
    requires i < |nodes| && nodes[i].nlink < 0
    ensures !Inv(nodes)
  {
    assert !CountOk(nodes, i);
  }

  /** A file with an entry in a directory without links: one link too many. */
  lemma Uncounted(a: seq<Node>, b: seq<Node>, d: nat, i: nat)
    requires Inv(a) && d < |a| && i < |a| && OtherNodes(a, b, d, i) && a[d].nlink == b[d].nlink == 0 && i != 0
    requires a[i].kind in {File, Device} || a[i] == FreeNode()
    requires b[i].kind in {File, Device} && b[i].nlink == Up(a[i].nlink)
    ensures !CountOk(b, i)
  {
    hide Total, CountIn, DirOk;
    assert CountOk(a, i);
    if a[i] == FreeNode() { NotNamed(a, i, |a|); }
    TotalSame(a, b, i, |a|);
  }

  /** A directory that has lost its last link and gains one from a new subdirectory: named nowhere. */
  lemma Unnamed(a: seq<Node>, b: seq<Node>, d: nat, k: nat, e: Dirent, i: nat)
    requires Inv(a) && 0 < d < |a| && i < |a| && i != d && OtherNodes(a, b, d, i)
    requires a[d].kind == Dir && a[d].nlink == 0 && a[i] == FreeNode() && |b[i].ents| <= 2
    requires 2 <= k <= |a[d].ents| && e.inum == i && b[d] == Node(Dir, 1, Put(a[d].ents, k, e))
    ensures !CountOk(b, d)
  {
    hide Total;
    assert DirOk(a, d);
    NotNamed(a, d, |a|);
    CountNone(b[d].ents, {d}, |b[d].ents|);
    TotalSame(a, b, d, |a|);
  }

  lemma Creates(a: seq<Node>, b: seq<Node>, dp: nat, k: nat, name: seq<Byte>, ip: nat, y: Node)
    requires Inv(a) && 0 < dp < |a| && a[dp].kind == Dir && 0 < ip < |a| && a[ip] == FreeNode()
    requires k <= |a[dp].ents| && k < MAXENTS && (k < |a[dp].ents| ==> a[dp].ents[k].inum == 0)
    requires !Has(a[dp].ents, Key(name))
    requires y.kind != Free && y.nlink == 1
    requires y.ents == if y.kind == Dir then [Dirent(ip, Dot()), Dirent(dp, DotDot())] else []
    requires b == a[ip := y][dp := a[dp].(ents := Put(a[dp].ents, k, Dirent(ip, Key(name))),
                                          nlink := if y.kind == Dir then Up(a[dp].nlink) else a[dp].nlink)]
    ensures Made(a, b, dp, Key(name), y.kind, ip)
    ensures Inv(b) <==> 0 < a[dp].nlink
    ensures a[dp].nlink == 0 ==> !CountOk(b, ip) || !CountOk(b, dp)
  {
    hide Inv, DirOk, CountOk, Total, Key, Dot, DotDot;
    DirSound(a, dp);
    Bounds(a, dp);
    KeyTwice(name);
    PutNames(a[dp].ents, k, Dirent(ip, Key(name)));
    if a[dp].nlink == 0 {
      if y.kind == Dir { Unnamed(a, b, dp, k, Dirent(ip, Key(name)), ip); } else { Uncounted(a, b, dp, ip); }
      Broken(b, ip, dp);
    } else {
      SubdirsFit(a, dp);
      AddKeeps(a, dp, k, Key(name), ip, y);
      assert b == Added(a, dp, k, Key(name), ip, y);
    }
  }

  lemma Linked(a: seq<Node>, b: seq<Node>, dp: nat, k: nat, name: seq<Byte>, ip: nat)
    requires Inv(a) && 0 < dp < |a| && a[dp].kind == Dir && 0 < ip < |a| && a[ip].kind in {File, Device}
    requires a[ip].nlink > 0
    requires k <= |a[dp].ents| && k < MAXENTS && (k < |a[dp].ents| ==> a[dp].ents[k].inum == 0)
    requires !Has(a[dp].ents, Key(name))
    requires b == a[ip := a[ip].(nlink := Up(a[ip].nlink))]
                   [dp := a[dp].(ents := Put(a[dp].ents, k, Dirent(ip, Key(name))))]
    ensures OtherNodes(a, b, dp, ip) && b[ip] == a[ip].(nlink := Up(a[ip].nlink)) && b[dp] == a[dp].(ents := b[dp].ents)
    ensures Holds(b[dp].ents, Key(name), ip) && OtherNames(a[dp].ents, b[dp].ents, Key(name))
    ensures Inv(b) <==> 0 < a[dp].nlink && a[ip].nlink < SHORT_MAX
    ensures a[dp].nlink == 0 ==> !CountOk(b, ip) || !CountOk(b, dp)
  {
    hide Inv, DirOk, CountOk, Total, Key;
    DirSound(a, dp);
    Bounds(a, ip);
    Bounds(a, dp);
    KeyTwice(name);
    PutNames(a[dp].ents, k, Dirent(ip, Key(name)));
    if a[dp].nlink == 0 {
      Uncounted(a, b, dp, ip);
      Broken(b, ip, dp);
    } else if a[ip].nlink == SHORT_MAX {
      Overflown(b, ip);
    } else {
      AddKeeps(a, dp, k, Key(name), ip, b[ip]);
      assert b == Added(a, dp, k, Key(name), ip, b[ip]);
    }
  }

  /** An entry that unlink may remove, and counts that can go down. */
  lemma Unlinks(nodes: seq<Node>, dp: nat, off: nat, name: seq<Byte>, i: nat)
    requires Inv(nodes) && 0 < dp < |nodes| && nodes[dp].kind == Dir && off < |nodes[dp].ents|
    requires nodes[dp].ents[off] == Dirent(i, Key(name)) && 0 < i < |nodes| && Key(name) != Dot()
    requires Key(name) != DotDot()
    requires nodes[i].kind == Dir ==> forall k :: 2 <= k < |nodes[i].ents| ==> nodes[i].ents[k].inum == 0
    ensures Removable(nodes, dp, off, i) && i != dp && nodes[i].nlink > 0
    ensures nodes[i].kind == Dir ==> nodes[dp].nlink > 1
  {
    hide CountOk, CountIn, Total, Pad, Zeros;
    assert DirOk(nodes, dp);
    RemovedLinks(nodes, dp, off, i);
  }

  lemma Unlinked(a: seq<Node>, dp: nat, off: nat, name: seq<Byte>, i: nat, last: bool)
    requires Inv(a) && Removable(a, dp, off, i) && a[dp].ents[off].name == Key(name)
    ensures var m := Removed(a, dp, off, i);
            var b := if last && m[i].nlink == 0 then m[i := FreeNode()] else m;
            Inv(b) && Unmade(a, b, dp, Key(name), i, last)
    ensures Holds(a[dp].ents, Key(name), i)
  {
    hide Inv, DirOk, CountOk, Total, Key;
    DirSound(a, dp);
    RemovedLinks(a, dp, off, i);
    RemoveKeeps(a, dp, off, i);
    ClearNames(a[dp].ents, off);
    var m := Removed(a, dp, off, i);
    if last && m[i].nlink == 0 { FreeKeeps(m, i); }
  }

  lemma {:induction false} NoEntries(nodes: seq<Node>, i: nat, n: nat)
    requires n <= |nodes| && forall d :: 0 <= d < n ==> |nodes[d].ents| <= 2
    ensures Total(nodes, i, n) == 0
  {
    if n > 0 { NoEntries(nodes, i, n - 1); }
  }

  lemma OnlyRoot(nodes: seq<Node>)
    requires |nodes| > ROOT && nodes[ROOT] == Node(Dir, 1, [Dirent(ROOT, Dot()), Dirent(ROOT, DotDot())])
    requires forall i :: 0 <= i < |nodes| && i != ROOT ==> nodes[i] == FreeNode()
    ensures Inv(nodes)
  {
    hide Total, Key, Dot, DotDot;
    KeyDots();
    forall i | 0 <= i < |nodes| ensures CountOk(nodes, i) { NoEntries(nodes, i, |nodes|); }
  }
}
