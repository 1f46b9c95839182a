/** Directory entry names: DIRSIZ bytes, padded with zeros (kernel/fs.c, kernel/string.c). */
module Names {
  import opened Blocks

  const DIRSIZ := 14

  ghost function Zeros(n: nat): (r: seq<Byte>)
    ensures |r| == n && forall k :: 0 <= k < n ==> r[k] == 0
  {
    if n == 0 then [] else [0] + Zeros(n - 1)
  }

  /** A C string (it ends at its first zero byte, or where the sequence ends) in a field of `n`. */
  ghost function Pad(s: seq<Byte>, n: nat): (r: seq<Byte>)
    ensures |r| == n
    decreases n
  {
    if n == 0 then [] else if s == [] || s[0] == 0 then Zeros(n) else [s[0]] + Pad(s[1..], n - 1)
  }

  /** The entry name that a path element is stored under. */
  ghost function Key(s: seq<Byte>): (r: seq<Byte>) {
    Pad(s, DIRSIZ)
  }

  function At(s: seq<Byte>, i: nat): (x: Byte) {
    if i < |s| then s[i] else 0
  }

  /** strncpy(de.name, name, DIRSIZ). */
  method Strncpy(t: seq<Byte>) returns (r: seq<Byte>)
    ensures r == Key(t)
  {
    hide Pad, Zeros;
    r := [];
    var i := 0;
    assert t[0..] == t;
    while i < DIRSIZ && At(t, i) != 0
      invariant 0 <= i <= DIRSIZ && i <= |t| && |r| == i
      invariant r + Pad(t[i..], DIRSIZ - i) == Pad(t, DIRSIZ)
    {
      PadNext(r, t, i, DIRSIZ - i);
      r := r + [t[i]];
      i := i + 1;
    }
    if i < DIRSIZ { PadFirst(t[i..], DIRSIZ - i); }
    while i < DIRSIZ
      invariant |r| == i <= DIRSIZ && r + Zeros(DIRSIZ - i) == Key(t)
    {
      ZerosNext(r, DIRSIZ - i);
      r := r + [0];
      i := i + 1;
    }
  }

  /** namecmp(s, t) == 0, by strncmp's loop: the names are stored the same. */
  method Namecmp(s: seq<Byte>, t: seq<Byte>) returns (same: bool)
    ensures same <==> Key(s) == Key(t)
  {
    hide Pad, Zeros;
    var i := 0;
    assert s[0..] == s && t[0..] == t;
    while i < DIRSIZ && At(s, i) != 0 && At(s, i) == At(t, i)
      invariant 0 <= i <= DIRSIZ && i <= |s| && i <= |t|
      invariant Key(s) == Key(t) <==> Pad(s[i..], DIRSIZ - i) == Pad(t[i..], DIRSIZ - i)
    {
      PadHead(s[i..], t[i..], DIRSIZ - i);
      assert s[i..][1..] == s[i + 1..] && t[i..][1..] == t[i + 1..];
      i := i + 1;
    }
    if i == DIRSIZ {
      return true;
    }
    PadFirst(s[i..], DIRSIZ - i);
    PadFirst(t[i..], DIRSIZ - i);
    return At(s, i) == At(t, i);
  }

  lemma PadNext(r: seq<Byte>, t: seq<Byte>, i: nat, n: nat)
    requires n > 0 && i < |t| && t[i] != 0
    ensures r + Pad(t[i..], n) == r + [t[i]] + Pad(t[i + 1..], n - 1)
  {
    assert t[i..][1..] == t[i + 1..];
  }

  lemma ZerosNext(r: seq<Byte>, n: nat)
    requires n > 0
    ensures r + Zeros(n) == r + [0] + Zeros(n - 1)
  {
  }

  lemma PadHead(s: seq<Byte>, t: seq<Byte>, n: nat)
    requires n > 0 && s != [] && t != [] && s[0] == t[0] != 0
    ensures Pad(s, n) == Pad(t, n) <==> Pad(s[1..], n - 1) == Pad(t[1..], n - 1)
  {
    assert Pad(s, n)[1..] == Pad(s[1..], n - 1) && Pad(t, n)[1..] == Pad(t[1..], n - 1);
  }

  lemma PadFirst(s: seq<Byte>, n: nat)
    requires n > 0
    ensures Pad(s, n)[0] == At(s, 0) && (At(s, 0) == 0 ==> Pad(s, n) == Zeros(n))
  {
  }

  /** A stored name is stored as itself. */
  lemma {:induction false} PadTwice(s: seq<Byte>, n: nat)
    ensures Pad(Pad(s, n), n) == Pad(s, n)
    decreases n
  {
    if n > 0 && s != [] && s[0] != 0 {
      assert Pad(s, n)[1..] == Pad(s[1..], n - 1);
      PadTwice(s[1..], n - 1);
    }
  }
}
