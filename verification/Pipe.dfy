/** Pipes (kernel/pipe.c). A method is what a process does between acquiring the pipe's lock, or
    waking with it, and releasing it or going to sleep; any interleaving is a sequence of them. */
module Pipe {
  import opened Basics
  import opened Blocks

  const PIPESIZE := 512
  const U32 := 0x1_0000_0000

  /** How a section ends: the call returns a count, returns -1, or sleeps and will go on later. */
  datatype Outcome = Returns | Fails | Sleeps

  class Pipe {
    const data: array<Byte>
    var nread: nat
    var nwrite: nat
    var readopen: bool
    var writeopen: bool
    /** Processes asleep on &nwrite and on &nread. */
    var writers: set<nat>
    var readers: set<nat>
    /** All bytes that writers put in, and all that readers took out. */
    ghost var accepted: seq<Byte>
    ghost var consumed: seq<Byte>

    ghost predicate Shaped()
      reads this
    {
      data.Length == PIPESIZE && nread < U32 && nwrite < U32 && Count(nread, nwrite) <= PIPESIZE
    }

    /** The bytes in the pipe, oldest first. */
    ghost function Buffered(): (r: seq<Byte>)
      requires Shaped()
      reads this, data
    {
      Window(data[..], nread, Count(nread, nwrite))
    }

    /** FIFO, and a writer sleeps only at a full pipe that can still be read. */
    ghost predicate Valid()
      reads this, data
    {
      && Shaped() && accepted == consumed + Buffered()
      && (writers != {} ==> Count(nread, nwrite) == PIPESIZE && readopen)
    }

    /** The like for readers, which does not always hold. */
    ghost predicate ReadersRight()
      reads this
    {
      readers != {} ==> nread == nwrite && writeopen
    }

    constructor ()
      ensures Valid() && ReadersRight() && readers == {} && writers == {} && fresh(data)
      ensures accepted == [] && consumed == [] && readopen && writeopen
    {
      data := new Byte[PIPESIZE];
      nread := 0;
      nwrite := 0;
      readopen := true;
      writeopen := true;
      writers := {};
      readers := {};
      accepted := [];
      consumed := [];
    }

    /** A write of `n` bytes, from byte `i0` on, that strands a reader: one sleeps, and the writer finds
        itself killed when it has stored some bytes but is neither done nor stopped by a full pipe. */
    ghost predicate Strands(n: nat, i0: nat, good: nat, end: nat)
      reads this
    {
      readers != {} && readopen && i0 < end < n && end <= good && end - i0 <= PIPESIZE
    }

    /** pipewrite by process `t`, from byte `i0` of `src` on. Only the first `good` bytes can be
        copied in, and the process finds itself killed when it has got to byte `end`. */
    method Write(t: nat, src: seq<Byte>, i0: nat, good: nat, end: nat) returns (i: nat, how: Outcome)
      requires Valid() && t !in writers && t !in readers && i0 <= |src|
      modifies this, data
      ensures Valid() && readopen == old(readopen) && writeopen == old(writeopen) && consumed == old(consumed)
      ensures i0 <= i <= |src| && accepted == old(accepted) + src[i0..i]
      ensures i > i0 ==> i <= good && i <= end && readopen
      ensures how == Returns ==> readers == {} && (i == |src| || (i >= good && readopen && i < end))
      ensures how == Fails ==>
                i < |src| && (!readopen || i >= end) && readers == old(readers) && writers == old(writers)
      ensures how == Sleeps ==> i < |src| && i < end && writers == old(writers) + {t} && readers == {}
      ensures how != Sleeps ==> writers == old(writers)
      ensures old(ReadersRight()) ==> (ReadersRight() <==> !old(Strands(|src|, i0, good, end)))
    {
      hide Window, Count;
      i := i0;
      assert src[i0..i0] == [];
      while i < |src|
        invariant i0 <= i <= |src| && Valid() && readopen == old(readopen) && writeopen == old(writeopen)
        invariant consumed == old(consumed) && accepted == old(accepted) + src[i0..i]
        invariant writers == old(writers) && readers == old(readers)
        invariant i == i0 ==> nread == old(nread) && nwrite == old(nwrite)
        invariant i > i0 ==> nread != nwrite && i <= end && i <= good && readopen
        invariant |Buffered()| == |old(Buffered())| + i - i0
      {
        if !readopen || i >= end {
          return i, Fails;
        }
        if nwrite == (nread + PIPESIZE) % U32 {
          CountFull(nread, nwrite);
          readers := {};
          writers := writers + {t};
          return i, Sleeps;
        }
        if i >= good {
          break;
        }
        Put(src[i]);
        assert src[i0..i + 1] == src[i0..i] + [src[i]];
        i := i + 1;
      }
      readers := {};
      return i, Returns;
    }

    method Put(ch: Byte)
      requires Valid() && nwrite != (nread + PIPESIZE) % U32
      modifies this`nwrite, this`accepted, data
      ensures Valid() && accepted == old(accepted) + [ch] && nread != nwrite
    {
      hide Window;
      WindowPush(data[..], nread, Count(nread, nwrite), ch);
      CountUp(nread, nwrite);
      data[nwrite % PIPESIZE] := ch;
      assert data[..] == old(data[..])[nwrite % PIPESIZE := ch];
      nwrite := (nwrite + 1) % U32;
      accepted := accepted + [ch];
    }

    /** piperead of up to `n` bytes by process `t`. Only `good` bytes can be copied out; the byte
        whose copy fails is gone. */
    method Read(t: nat, n: nat, good: nat, killed: bool) returns (dst: seq<Byte>, how: Outcome)
      requires Valid() && t !in writers && t !in readers
      modifies this
      ensures Valid() && readopen == old(readopen) && writeopen == old(writeopen) && accepted == old(accepted)
      ensures how != Returns <==> old(nread) == old(nwrite) && writeopen
      ensures how == Fails ==>
                killed && dst == [] && consumed == old(consumed) && readers == old(readers) && writers == old(writers)
      ensures how == Sleeps ==>
                && !killed && dst == [] && consumed == old(consumed)
                && readers == old(readers) + {t} && writers == old(writers)
      ensures how == Returns ==>
                writers == {} && readers == old(readers) && |dst| == Min(n, Min(good, |old(Buffered())|))
      ensures how == Returns ==>
                && dst <= old(Buffered())
                && consumed == old(consumed) + old(Buffered())[..Taken(n, good, |old(Buffered())|)]
      ensures old(ReadersRight()) ==> ReadersRight()
    {
      hide Window, Count;
      dst := [];
      if nread == nwrite && writeopen {
        if killed {
          return [], Fails;
        }
        readers := readers + {t};
        return [], Sleeps;
      }
      ghost var buf, taken := Buffered(), Taken(n, good, |Buffered()|);
      dst := Drain(n, good);
      assert buf == buf[..taken] + buf[taken..];
      writers := {};
      return dst, Returns;
    }

    /** The loop of piperead. */
    method Drain(n: nat, good: nat) returns (dst: seq<Byte>)
      requires Shaped()
      modifies `nread, `consumed
      ensures Shaped() && dst == old(Buffered())[..Min(n, Min(good, |old(Buffered())|))]
      ensures Buffered() == old(Buffered())[Taken(n, good, |old(Buffered())|)..]
      ensures consumed == old(consumed) + old(Buffered())[..Taken(n, good, |old(Buffered())|)]
    {
      hide Window, Count;
      dst := [];
      ghost var buf := Buffered();
      var i := 0;
      assert buf[0..] == buf;
      while i < n
        invariant 0 <= i <= n && i <= |buf| && i <= good && Shaped()
        invariant dst == buf[..i] && Buffered() == buf[i..] && consumed == old(consumed) + buf[..i]
      {
        if nread == nwrite {
          break;
        }
        var ch := Get();
        Advanced(buf, i, ch, Buffered());
        if i >= good {
          break;
        }
        dst := dst + [ch];
        i := i + 1;
      }
    }

    method Get() returns (ch: Byte)
      requires Shaped() && nread != nwrite
      modifies this`nread, this`consumed
      ensures Shaped() && old(Buffered()) == [ch] + Buffered() && consumed == old(consumed) + [ch]
    {
      hide Window;
      WindowPop(data[..], nread, Count(nread, nwrite));
      CountDown(nread, nwrite);
      ch := data[nread % PIPESIZE];
      nread := (nread + 1) % U32;
      consumed := consumed + [ch];
    }

    /** pipeclose of one end; the processes that sleep on the other wake. */
    method Close(writable: bool)
      requires Valid()
      modifies this
      ensures Valid() && accepted == old(accepted) && consumed == old(consumed)
      ensures writeopen == (old(writeopen) && !writable) && readopen == (old(readopen) && writable)
      ensures if writable then readers == {} && writers == old(writers) else writers == {} && readers == old(readers)
      ensures old(ReadersRight()) ==> ReadersRight()
    {
      if writable {
        writeopen := false;
        readers := {};
      } else {
        readopen := false;
        writers := {};
      }
    }

    /** kill wakes a process wherever it sleeps. */
    method Kill(t: nat)
      requires Valid()
      modifies this`writers, this`readers
      ensures Valid() && (old(ReadersRight()) ==> ReadersRight())
      ensures writers == old(writers) - {t} && readers == old(readers) - {t}
    {
      writers := writers - {t};
      readers := readers - {t};
    }
  }

  /** A pipe that comes to hold a byte while a process sleeps for one: a read of the empty pipe, then
      a write of two bytes by a process that is killed after the first. */
  method StrandedReader() returns (p: Pipe)
    ensures fresh(p) && p.Valid() && p.nread != p.nwrite && p.readopen && p.writeopen && p.readers == {7}
    ensures !p.ReadersRight()
  {
    p := new Pipe();
    var _, _ := p.Read(7, 1, 1, false);
    var _, _ := p.Write(8, [65, 66], 0, 2, 1);
  }

  function Min(a: nat, b: nat): nat { if a < b then a else b }

  /** How many of `avail` bytes a read takes out: one more than it stores if a copy fails. */
  function Taken(n: nat, good: nat, avail: nat): (k: nat)
    ensures k <= avail
  {
    if good < n && good < avail then good + 1 else Min(n, avail)
  }

  ghost function Window(d: seq<Byte>, from: nat, n: nat): (r: seq<Byte>)
    requires |d| == PIPESIZE
    ensures |r| == n
  {
    seq(n, k requires 0 <= k < n => d[(from + k) % PIPESIZE])
  }

  lemma WindowPush(d: seq<Byte>, from: nat, n: nat, ch: Byte)
    requires |d| == PIPESIZE && n < PIPESIZE
    ensures Window(d[(from + n) % PIPESIZE := ch], from, n + 1) == Window(d, from, n) + [ch]
    ensures (from + n) % U32 % PIPESIZE == (from + n) % PIPESIZE
  {
    Fold(from + n);
    var e := d[(from + n) % PIPESIZE := ch];
    forall k | 0 <= k < n ensures Window(e, from, n + 1)[k] == Window(d, from, n)[k] {
      RemApart(PIPESIZE, from + k, n - k);
    }
  }

  lemma WindowPop(d: seq<Byte>, from: nat, n: nat)
    requires |d| == PIPESIZE && n > 0
    ensures Window(d, from, n) == [d[from % PIPESIZE]] + Window(d, (from + 1) % U32, n - 1)
  {
    var w := Window(d, (from + 1) % U32, n - 1);
    forall k | 0 <= k < n - 1 ensures w[k] == Window(d, from, n)[k + 1] {
      Fold(from + 1);
      Same((from + 1) % U32, from + 1, k);
      assert (from + 1) + k == from + (k + 1);
    }
  }

  lemma Advanced(buf: seq<Byte>, i: nat, ch: Byte, rest: seq<Byte>)
    requires i <= |buf| && buf[i..] == [ch] + rest
    ensures i < |buf| && buf[..i + 1] == buf[..i] + [ch] && buf[i + 1..] == rest
  {
    assert buf[i] == buf[i..][0] && rest == buf[i..][1..];
  }

  lemma Fold(x: nat)
    ensures x % U32 % PIPESIZE == x % PIPESIZE
  {
    Shifted(PIPESIZE, x % U32, U32 / PIPESIZE * (x / U32));
  }

  lemma Same(x: nat, y: nat, k: nat)
    requires x % PIPESIZE == y % PIPESIZE
    ensures (x + k) % PIPESIZE == (y + k) % PIPESIZE
  {
    SumOf(PIPESIZE, x, k);
    SumOf(PIPESIZE, y, k);
  }

  lemma CountUp(from: nat, to: nat)
    requires from < U32 && to < U32 && to != (from + PIPESIZE) % U32 && Count(from, to) <= PIPESIZE
    ensures Count(from, to) < PIPESIZE && Count(from, (to + 1) % U32) == Count(from, to) + 1
  {
    Distance(from, to);
    Distance(from, (to + 1) % U32);
  }

  lemma CountFull(from: nat, to: nat)
    requires from < U32 && to == (from + PIPESIZE) % U32
    ensures Count(from, to) == PIPESIZE
  {
    Distance(from, to);
  }

  lemma CountDown(from: nat, to: nat)
    requires from < U32 && to < U32 && from != to
    ensures Count((from + 1) % U32, to) == Count(from, to) - 1
  {
    Distance(from, to);
    Distance((from + 1) % U32, to);
  }

  lemma Distance(from: nat, to: nat)
    requires from < U32 && to < U32
    ensures Count(from, to) == if from <= to then to - from else to - from + U32
  {
    if from <= to { Divided(U32, 0, to - from); } else { Divided(U32, -1, to - from + U32); }
  }

  /** The distance between two 32-bit counters. */
  function Count(from: nat, to: nat): (n: nat)
    ensures from < U32 && to < U32 ==> n < U32 && to == (from + n) % U32 && (n == 0 <==> from == to)
  {
    (to - from) % U32
  }
}
