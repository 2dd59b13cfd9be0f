/** Kernel pipes (kern/darwin.c): the object that every descriptor of one pipe shares, a
    fixed ring of bytes with a count of readers and one of writers, and what each call
    does to it under `p_lock`. */
module Pipe {

  const PIPE_BUF: nat := 4096
  const CHUNK: nat := 512

  function Min(a: nat, b: nat): nat {
    if a <= b then a else b
  }

  // ---- the ring ------------------------------------------------------------------

  /** The place of the byte `i` positions after `start`. */
  function Slot(start: nat, i: nat): (p: nat)
    ensures p < PIPE_BUF
  {
    (start + i) % PIPE_BUF
  }

  /** `n` bytes of a ring buffer from `start` on. */
  function Window(buf: seq<bv8>, start: nat, n: nat): (s: seq<bv8>)
    requires |buf| == PIPE_BUF
    ensures |s| == n && forall i :: 0 <= i < n ==> s[i] == buf[Slot(start, i)]
  {
    seq(n, i requires 0 <= i => buf[Slot(start, i)])
  }

  lemma SlotAfter(start: nat, i: nat, k: nat)
    ensures Slot(Slot(start, i), k) == Slot(start, i + k)
  {
  }

  lemma SlotsDiffer(start: nat, j: nat, k: nat)
    requires j < k < PIPE_BUF
    ensures Slot(start, j) != Slot(start, k)
  {
  }

  /** Reading past `k` bytes leaves the rest of the window. */
  lemma WindowSkip(buf: seq<bv8>, start: nat, n: nat, k: nat)
    requires |buf| == PIPE_BUF && k <= n
    ensures Window(buf, Slot(start, k), n - k) == Window(buf, start, n)[k..]
  {
    var w := Window(buf, Slot(start, k), n - k);
    forall i | 0 <= i < n - k
      ensures w[i] == Window(buf, start, n)[k..][i]
    {
      SlotAfter(start, k, i);
    }
  }

  /** Writing the slot after a window that is not the whole ring extends it. */
  lemma WindowExtend(buf: seq<bv8>, start: nat, n: nat, b: bv8)
    requires |buf| == PIPE_BUF && n < PIPE_BUF
    ensures Window(buf[Slot(start, n) := b], start, n + 1) == Window(buf, start, n) + [b]
  {
    var after := buf[Slot(start, n) := b];
    forall i | 0 <= i < n
      ensures after[Slot(start, i)] == buf[Slot(start, i)]
    {
      SlotsDiffer(start, i, n);
    }
  }

  // ---- what happens under the lock ------------------------------------------------

  datatype ReadTry = Took(n: nat) | AtEnd | ReadSignalled | ReadParks

  datatype WriteTry = Put(n: nat) | NoReaders | WriteSignalled | WriteParks

  /** A pass of the read loop, with a kill or signal pending or not. */
  function TryRead(count: nat, writers: nat, n: nat, pending: bool): ReadTry {
    if count > 0 then Took(Min(n, count))
    else if writers == 0 then AtEnd
    else if pending then ReadSignalled
    else ReadParks
  }

  /** A pass of the write loop with `n` bytes of the chunk left. */
  function TryWrite(count: nat, readers: nat, n: nat, pending: bool): WriteTry
    requires count <= PIPE_BUF
  {
    if readers == 0 then NoReaders
    else if count == PIPE_BUF then if pending then WriteSignalled else WriteParks
    else Put(Min(n, PIPE_BUF - count))
  }

  /** The shared object behind every descriptor of one pipe. */
  class Shared {
    const buf: array<bv8>
    var rpos: nat
    var count: nat
    var readers: nat
    var writers: nat

    ghost predicate Valid()
      reads this, buf
    {
      buf.Length == PIPE_BUF && rpos < PIPE_BUF && count <= PIPE_BUF
    }

    /** The bytes in the ring, oldest first. */
    ghost function Contents(): seq<bv8>
      requires Valid()
      reads this, buf
    {
      Window(buf[..], rpos, count)
    }

    constructor ()
      ensures Valid() && fresh(buf) && Contents() == []
      ensures readers == writers == 1
    {
      buf := new bv8[PIPE_BUF];
      rpos, count := 0, 0;
      readers, writers := 1, 1;
    }

    /** The copying loop of a read. */
    method CopyOut(take: nat) returns (bounce: seq<bv8>)
      requires Valid() && take <= count
      modifies this`rpos, this`count
      ensures Valid() && count == old(count) - take
      ensures bounce == old(Contents())[..take]
      ensures Contents() == old(Contents())[take..]
    {
      hide Slot;
      bounce := [];
      var i := 0;
      ghost var start := rpos;
      assert rpos == Slot(start, 0) by { SlotZero(start); }
      while i < take
        invariant 0 <= i <= take && count == old(count)
        invariant rpos == Slot(start, i)
        invariant bounce == old(Contents())[..i]
      {
        assert old(Contents())[i] == buf[..][rpos];
        bounce := bounce + [buf[rpos]];
        NextSlot(start, i);
        rpos := (rpos + 1) % PIPE_BUF;
        i := i + 1;
      }
      WindowSkip(buf[..], start, count, take);
      count := count - take;
    }

    /** The copying loop of a write. */
    method CopyIn(src: seq<bv8>)
      requires Valid() && count + |src| <= PIPE_BUF
      modifies this`count, buf
      ensures Valid() && count == old(count) + |src|
      ensures Contents() == old(Contents()) + src
    {
      hide Slot;
      var wpos := (rpos + count) % PIPE_BUF;
      assert wpos == Slot(rpos, count) by { IsSlot(rpos, count); }
      var i := 0;
      while i < |src|
        invariant 0 <= i <= |src| && count == old(count)
        invariant wpos == Slot(rpos, count + i)
        invariant Window(buf[..], rpos, count + i) == old(Contents()) + src[..i]
      {
        ghost var was := buf[..];
        buf[wpos] := src[i];
        assert buf[..] == was[wpos := src[i]];
        WindowExtend(was, rpos, count + i, src[i]);
        NextSlot(rpos, count + i);
        wpos := (wpos + 1) % PIPE_BUF;
        i := i + 1;
      }
      count := count + |src|;
    }

    /** One pass of the read loop under the lock. */
    method Read(n: nat, pending: bool) returns (r: ReadTry, bounce: seq<bv8>)
      requires Valid()
      modifies this`rpos, this`count
      ensures Valid() && r == TryRead(old(count), writers, n, pending)
      ensures r.Took? ==> bounce == old(Contents())[..r.n] && Contents() == old(Contents())[r.n..]
      ensures !r.Took? ==> bounce == [] && Contents() == old(Contents())
    {
      bounce := [];
      if count > 0 {
        var take := if count < n then count else n;
        bounce := CopyOut(take);
        return Took(take), bounce;
      }
      if writers == 0 { return AtEnd, []; }
      if pending { return ReadSignalled, []; }
      return ReadParks, [];
    }

    /** One pass of the write loop under the lock. */
    method Write(chunk: seq<bv8>, pending: bool) returns (r: WriteTry)
      requires Valid()
      modifies this`count, buf
      ensures Valid() && r == TryWrite(old(count), readers, |chunk|, pending)
      ensures r.Put? ==> Contents() == old(Contents()) + chunk[..r.n]
      ensures !r.Put? ==> Contents() == old(Contents())
    {
      if readers == 0 { return NoReaders; }
      var space := PIPE_BUF - count;
      if space == 0 {
        if pending { return WriteSignalled; }
        return WriteParks;
      }
      var put := if |chunk| < space then |chunk| else space;
      CopyIn(chunk[..put]);
      return Put(put);
    }

    /** Drops one end's reference and says whether that was the last of all. */
    method Release(writer: bool) returns (dead: bool)
      requires Valid() && if writer then writers > 0 else readers > 0
      modifies this`readers, this`writers
      ensures Valid() && Contents() == old(Contents())
      ensures writers == old(writers) - if writer then 1 else 0
      ensures readers == old(readers) - if writer then 0 else 1
      ensures dead <==> readers + writers == 0
    {
      if writer {
        writers := writers - 1;
      } else {
        readers := readers - 1;
      }
      dead := readers == 0 && writers == 0;
    }
  }

  lemma SlotZero(start: nat)
    requires start < PIPE_BUF
    ensures Slot(start, 0) == start
  {
  }

  lemma IsSlot(start: nat, i: nat)
    ensures (start + i) % PIPE_BUF == Slot(start, i)
  {
  }

  lemma NextSlot(start: nat, i: nat)
    ensures (Slot(start, i) + 1) % PIPE_BUF == Slot(start, i + 1)
  {
  }
}
