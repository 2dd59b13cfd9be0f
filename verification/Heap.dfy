/** The kernel heap (kern/kmem.c) on a byte memory.

    `Kmalloc` and `Kfree` are what the two calls do to memory and the freelist heads;
    `Memory` does it in place, byte by byte. */
module Heap {
  import opened HeapBytes

  /** kb_free of every bucket; 0 is NULL. */
  datatype Heap = Heap(mem: seq<byte>, heads: seq<nat>)

  datatype Panic = BadMagic | BogusBucket | RedZone | UseAfterFree | Unaligned | Wild

  datatype Result = Ok(heap: Heap, p: nat) | Panicked(why: Panic)

  // ---- the two calls ----------------------------------------------------------------

  /** bucket_for, from bucket `i` on; NBUCKETS for none. */
  function BucketFrom(need: nat, i: nat): (b: nat)
    requires i <= NBUCKETS
    ensures i <= b <= NBUCKETS
    ensures b < NBUCKETS ==> need <= BucketSize(b)
    ensures forall j :: i <= j < b ==> BucketSize(j) < need
    decreases NBUCKETS - i
  {
    if i == NBUCKETS || need <= BucketSize(i) then i else BucketFrom(need, i + 1)
  }

  function BucketFor(need: nat): nat {
    BucketFrom(need, 0)
  }

  /** One chunk onto a freelist. */
  function Push(h: Heap, b: nat, c: nat): (r: Heap)
    requires b < NBUCKETS && |h.heads| == NBUCKETS && c + BucketSize(b) <= |h.mem|
    ensures |r.heads| == NBUCKETS && |r.mem| == |h.mem|
  {
    Heap(Splice(h.mem, c, MakeFree(At(h.mem, c, BucketSize(b)), h.heads[b])), h.heads[b := c])
  }

  /** Where chunk `n` of a page starts. */
  function Offset(b: nat, n: nat): nat
    requires b < NBUCKETS
  {
    n * BucketSize(b)
  }

  lemma NextOffset(b: nat, n: nat)
    requires b < NBUCKETS && n > 0
    ensures Offset(b, n) == Offset(b, n - 1) + BucketSize(b)
  {
  }

  /** The first `n` chunks of a page, sliced and linked. */
  function Refill(h: Heap, b: nat, page: nat, n: nat): (r: Heap)
    requires b < NBUCKETS && |h.heads| == NBUCKETS && page + Offset(b, n) <= |h.mem|
    ensures |r.heads| == NBUCKETS && |r.mem| == |h.mem|
  {
    if n == 0 then h
    else
      NextOffset(b, n);
      Push(Refill(h, b, page, n - 1), b, page + Offset(b, n - 1))
  }

  function PerPage(b: nat): nat
    requires b < NBUCKETS
  {
    PAGE_SIZE / BucketSize(b)
  }

  function Pages(need: nat): nat {
    (need + PAGE_SIZE - 1) / PAGE_SIZE
  }

  /** kmalloc_large's header has no size. */
  function LargeHeader(npages: nat): (w: seq<byte>)
    ensures |w| == 8
  {
    Enc(BUCKET_LARGE, 2) + Enc(npages, 2) + Enc(HDR_MAGIC, 4)
  }

  /** `page`: what the page allocator would hand out, 0 if it has nothing. */
  function KmallocLarge(h: Heap, size: nat, page: nat): Result {
    var npages := Pages(size + HDR_SIZE);
    if npages > 0xFFFF || page == 0 || page + npages * PAGE_SIZE > |h.mem| then Ok(h, 0)
    else
      LargeFits(size);
      Ok(h.(mem := Splice(h.mem, page, LargeHeader(npages))), page + HDR_SIZE)
  }

  lemma LargeFits(size: nat)
    ensures size + HDR_SIZE <= Pages(size + HDR_SIZE) * PAGE_SIZE < size + HDR_SIZE + PAGE_SIZE
  {
  }

  /** Takes the head of a freelist that has one. */
  function Pop(h: Heap, b: nat, size: nat): Result
    requires b < NBUCKETS && |h.heads| == NBUCKETS && HDR_SIZE + size <= BucketSize(b)
  {
    var c := h.heads[b];
    if c + BucketSize(b) > |h.mem| then Panicked(Wild)
    else
      var w := At(h.mem, c, BucketSize(b));
      if !Poisoned(w) then Panicked(UseAfterFree)
      else Ok(Heap(Splice(h.mem, c, MakeLive(w, b, size)), h.heads[b := Link(w)]), c + HDR_SIZE)
  }

  function Kmalloc(h: Heap, size: nat, page: nat): Result
    requires |h.heads| == NBUCKETS
  {
    if size == 0 then Ok(h, 0)
    else
      var b := BucketFor(size + HDR_SIZE);
      if b == NBUCKETS then KmallocLarge(h, size, page)
      else
        var refills := h.heads[b] == 0 && page != 0 && page + Offset(b, PerPage(b)) <= |h.mem|;
        var g := if refills then Refill(h, b, page, PerPage(b)) else h;
        if g.heads[b] == 0 then Ok(g, 0) else Pop(g, b, size)
  }

  datatype Verdict = Bad(why: Panic) | LargeRun | InBucket(b: nat)

  /** What kfree makes of the bytes at a header: a panic, or where the chunk goes. */
  function VerdictOf(mem: seq<byte>, a: nat): Verdict
    requires a + HDR_SIZE <= |mem|
  {
    var hdr := At(mem, a, HDR_SIZE);
    if Magic(hdr) != HDR_MAGIC then Bad(BadMagic)
    else if Bucket(hdr) == BUCKET_LARGE then if a % PAGE_SIZE != 0 then Bad(Unaligned) else LargeRun
    else if Bucket(hdr) >= NBUCKETS then Bad(BogusBucket)
    else if a + BucketSize(Bucket(hdr)) > |mem| then Bad(Wild)
    else if !Zoned(At(mem, a, BucketSize(Bucket(hdr))), Size(hdr)) then Bad(RedZone)
    else InBucket(Bucket(hdr))
  }

  function Kfree(h: Heap, p: nat): Result
    requires |h.heads| == NBUCKETS
  {
    if p == 0 then Ok(h, 0)
    else if p < HDR_SIZE || p > |h.mem| then Panicked(Wild)
    else
      match VerdictOf(h.mem, p - HDR_SIZE)
      case Bad(why) => Panicked(why)
      case LargeRun => Ok(h.(mem := Splice(h.mem, p - HDR_SIZE + 4, Enc(0, 4))), 0)
      case InBucket(b) => VerdictFits(h.mem, p - HDR_SIZE); Ok(Push(h, b, p - HDR_SIZE), 0)
  }

  // ---- the same in place -------------------------------------------------------------

  class Memory {
    const mem: array<byte>
    var heads: seq<nat>

    ghost predicate Valid()
      reads this, mem
    {
      |heads| == NBUCKETS
    }

    ghost function Value(): Heap
      reads this, mem
    {
      Heap(mem[..], heads)
    }

    constructor (bytes: nat)
      ensures Valid() && fresh(mem) && mem.Length == bytes
      ensures forall b :: 0 <= b < NBUCKETS ==> heads[b] == 0
    {
      mem := new byte[bytes](i => 0);
      heads := seq(NBUCKETS, i => 0);
    }

    /** The painting loops: paint_redzone, paint_poison, and refill_bucket's. */
    method Paint(lo: nat, hi: nat, v: byte)
      requires hi <= mem.Length
      modifies mem
      ensures forall j :: 0 <= j < mem.Length ==> mem[j] == if lo <= j < hi then v else old(mem[j])
    {
      var i := lo;
      while i < hi
        invariant lo <= i && (lo <= hi ==> i <= hi)
        invariant forall j :: 0 <= j < mem.Length ==> mem[j] == if lo <= j < i && j < hi then v else old(mem[j])
      {
        mem[i] := v;
        i := i + 1;
      }
    }

    /** The checking loops: verify_redzone and verify_poison.  `at` is the first bad byte. */
    method Verify(lo: nat, hi: nat, v: byte) returns (ok: bool, at: nat)
      requires hi <= mem.Length
      ensures ok <==> forall j :: lo <= j < hi ==> mem[j] == v
      ensures !ok ==> lo <= at < hi && mem[at] != v && forall j :: lo <= j < at ==> mem[j] == v
    {
      at := lo;
      while at < hi
        invariant lo <= at
        invariant forall j :: lo <= j < at && j < hi ==> mem[j] == v
      {
        if mem[at] != v { return false, at; }
        at := at + 1;
      }
      ok := true;
    }

    /** A little-endian store of `n` bytes. */
    method Store(a: nat, x: nat, n: nat)
      requires a + n <= mem.Length
      modifies mem
      ensures mem[..] == Splice(old(mem[..]), a, Enc(x, n))
    {
      var i, rest := 0, x;
      ghost var done: seq<byte> := [];
      while i < n
        invariant 0 <= i <= n && |done| == i
        invariant done + Enc(rest, n - i) == Enc(x, n)
        invariant mem[..] == Splice(old(mem[..]), a, done)
      {
        ghost var was := mem[..];
        mem[a + i] := rest % 256;
        assert mem[..] == was[a + i := rest % 256];
        done := done + [rest % 256];
        rest := rest / 256;
        i := i + 1;
      }
    }

    /** The last part of kfree: poison, clear the magic, link. */
    method Retire(a: nat, b: nat)
      requires Valid() && b < NBUCKETS && a + BucketSize(b) <= mem.Length
      modifies this, mem
      ensures Valid() && Value() == Push(old(Value()), b, a)
    {
      hide Enc, MakeFree, Splice, At;
      ghost var m0 := mem[..];
      Paint(a + LINK_SIZE, a + BucketSize(b), POISON_PATTERN);
      FreedBytes(m0, mem[..], a, BucketSize(b), heads[b]);
      Store(a + 4, 0, 4);
      Store(a, heads[b], 8);
      heads := heads[b := a];
    }

    /** One round of refill_bucket's loop: poison past the link, and link. */
    method Slice(a: nat, b: nat)
      requires Valid() && b < NBUCKETS && a + BucketSize(b) <= mem.Length
      modifies this, mem
      ensures Valid() && Value() == Push(old(Value()), b, a)
    {
      hide Enc, MakeFree, Splice, At;
      ghost var m0 := mem[..];
      Paint(a + LINK_SIZE, a + BucketSize(b), POISON_PATTERN);
      SlicedBytes(m0, mem[..], a, BucketSize(b), heads[b]);
      Store(a, heads[b], 8);
      heads := heads[b := a];
    }

    /** refill_bucket, given its page. */
    method RefillBucket(b: nat, page: nat)
      requires Valid() && b < NBUCKETS && page + Offset(b, PerPage(b)) <= mem.Length
      modifies this, mem
      ensures Valid() && Value() == Refill(old(Value()), b, page, PerPage(b))
    {
      hide Push;
      var i := 0;
      while i < PerPage(b)
        invariant 0 <= i <= PerPage(b) && page + Offset(b, i) <= mem.Length
        invariant Valid() && Value() == Refill(old(Value()), b, page, i)
      {
        InPage(b, i, PerPage(b));
        NextOffset(b, i + 1);
        Slice(page + Offset(b, i), b);
        i := i + 1;
      }
    }

    /** The part of kfree that looks before it touches. */
    method Inspect(a: nat) returns (r: Verdict)
      requires a + HDR_SIZE <= mem.Length
      ensures r == VerdictOf(mem[..], a)
    {
      hide Enc, Dec;
      var hdr := mem[a..a + HDR_SIZE];
      assert hdr == At(mem[..], a, HDR_SIZE);
      if Magic(hdr) != HDR_MAGIC { return Bad(BadMagic); }
      var b := Bucket(hdr);
      if b == BUCKET_LARGE {
        if a % PAGE_SIZE != 0 { return Bad(Unaligned); }
        return LargeRun;
      }
      if b >= NBUCKETS { return Bad(BogusBucket); }
      var size := BucketSize(b);
      if a + size > mem.Length { return Bad(Wild); }
      var intact, _ := Verify(a + HDR_SIZE + Size(hdr), a + size, RZ_PATTERN);
      ZonedIn(mem[..], a, size, Size(hdr));
      return if intact then InBucket(b) else Bad(RedZone);
    }

    /** kfree */
    method Free(p: nat) returns (r: Outcome)
      requires Valid()
      modifies this, mem
      ensures Valid() && r == OutcomeOf(Kfree(old(Value()), p))
      ensures Value() == if r.Stops? then old(Value()) else Kfree(old(Value()), p).heap
    {
      hide VerdictOf, Push, Splice, Enc;
      if p == 0 { return Fine(0); }
      if p < HDR_SIZE || p > mem.Length { return Stops(Wild); }
      var a := p - HDR_SIZE;
      var v := Inspect(a);
      VerdictFits(mem[..], a);
      match v {
        case Bad(why) => return Stops(why);
        case LargeRun =>
          Store(a + 4, 0, 4);
          return Fine(0);
        case InBucket(b) =>
          Retire(a, b);
          return Fine(0);
      }
    }

    /** The header stores and red zone of an allocation. */
    method Dress(c: nat, b: nat, size: nat)
      requires b < NBUCKETS && HDR_SIZE + size <= BucketSize(b) && c + BucketSize(b) <= mem.Length
      modifies mem
      ensures mem[..] == Splice(old(mem[..]), c, MakeLive(At(old(mem[..]), c, BucketSize(b)), b, size))
    {
      hide Enc, MakeLive, Splice, At;
      ghost var m0 := mem[..];
      Store(c, b, 2);
      Store(c + 2, 0, 2);
      Store(c + 4, HDR_MAGIC, 4);
      Store(c + 8, size, 8);
      ghost var m4 := mem[..];
      Paint(c + HDR_SIZE + size, c + BucketSize(b), RZ_PATTERN);
      DressedBytes(m0, m4, mem[..], c, BucketSize(b), b, size);
    }

    /** kmalloc from a freelist that has a chunk: unlink, check the poison, dress. */
    method TakeHead(b: nat, size: nat) returns (r: Outcome)
      requires Valid() && b < NBUCKETS && HDR_SIZE + size <= BucketSize(b)
      modifies this, mem
      ensures Valid() && r == OutcomeOf(Pop(old(Value()), b, size))
      ensures r.Fine? ==> Value() == Pop(old(Value()), b, size).heap
    {
      hide Splice, MakeLive, Dec, At, Poisoned, Link;
      var c := heads[b];
      if c + BucketSize(b) > mem.Length { return Stops(Wild); }
      var next := Dec(mem[c..c + LINK_SIZE]);
      LinkIn(mem[..], c, BucketSize(b));
      assert mem[..][c..c + LINK_SIZE] == mem[c..c + LINK_SIZE];
      heads := heads[b := next];
      var intact, _ := Verify(c + LINK_SIZE, c + BucketSize(b), POISON_PATTERN);
      PoisonedIn(mem[..], c, BucketSize(b));
      if !intact { return Stops(UseAfterFree); }
      Dress(c, b, size);
      return Fine(c + HDR_SIZE);
    }

    /** kmalloc */
    method Alloc(size: nat, page: nat) returns (r: Outcome)
      requires Valid()
      modifies this, mem
      ensures Valid() && r == OutcomeOf(Kmalloc(old(Value()), size, page))
      ensures r.Fine? ==> Value() == Kmalloc(old(Value()), size, page).heap
    {
      hide Refill, Pop, KmallocLarge;
      if size == 0 { return Fine(0); }
      var b := FindBucket(size + HDR_SIZE);
      if b == NBUCKETS {
        r := AllocLarge(size, page);
        return;
      }
      if heads[b] == 0 && page != 0 && page + Offset(b, PerPage(b)) <= mem.Length {
        RefillBucket(b, page);
      }
      if heads[b] == 0 { return Fine(0); }
      r := TakeHead(b, size);
    }

    /** bucket_for */
    method FindBucket(need: nat) returns (b: nat)
      ensures b == BucketFor(need)
    {
      b := 0;
      while b < NBUCKETS
        invariant 0 <= b <= NBUCKETS
        invariant BucketFrom(need, b) == BucketFor(need)
      {
        if need <= BucketSize(b) { return; }
        b := b + 1;
      }
    }

    /** kmalloc_large */
    method AllocLarge(size: nat, page: nat) returns (r: Outcome)
      requires Valid()
      modifies mem
      ensures r == OutcomeOf(KmallocLarge(old(Value()), size, page))
      ensures Value() == KmallocLarge(old(Value()), size, page).heap
    {
      hide Enc, Splice, LargeHeader;
      var npages := Pages(size + HDR_SIZE);
      if npages > 0xFFFF || page == 0 || page + npages * PAGE_SIZE > mem.Length { return Fine(0); }
      LargeFits(size);
      ghost var m0 := mem[..];
      Store(page, BUCKET_LARGE, 2);
      Store(page + 2, npages, 2);
      Store(page + 4, HDR_MAGIC, 4);
      LargeBytes(m0, page, npages);
      return Fine(page + HDR_SIZE);
    }
  }

  lemma VerdictFits(mem: seq<byte>, a: nat)
    requires a + HDR_SIZE <= |mem|
    ensures var v := VerdictOf(mem, a); v.InBucket? ==> v.b < NBUCKETS && a + BucketSize(v.b) <= |mem|
  {
  }

  lemma InPage(b: nat, i: nat, n: nat)
    requires b < NBUCKETS && i < n
    ensures Offset(b, i) + BucketSize(b) <= Offset(b, n)
  {
    assert (i + 1) * BucketSize(b) <= n * BucketSize(b);
  }

  lemma LinkIn(mem: seq<byte>, c: nat, n: nat)
    requires HDR_SIZE <= n && c + n <= |mem|
    ensures Dec(mem[c..c + LINK_SIZE]) == Link(At(mem, c, n))
  {
    hide Dec;
    assert At(mem, c, n)[..8] == mem[c..c + LINK_SIZE];
  }

  datatype Outcome = Fine(p: nat) | Stops(why: Panic)

  function OutcomeOf(r: Result): Outcome {
    if r.Ok? then Fine(r.p) else Stops(r.why)
  }

  lemma ZonedIn(mem: seq<byte>, a: nat, n: nat, size: nat)
    requires a + n <= |mem|
    ensures Zoned(At(mem, a, n), size) <==> forall j :: a + HDR_SIZE + size <= j < a + n ==> mem[j] == RZ_PATTERN
  {
    var w := At(mem, a, n);
    if Zoned(w, size) {
      forall j | a + HDR_SIZE + size <= j < a + n
        ensures mem[j] == RZ_PATTERN
      {
        assert mem[j] == w[j - a];
      }
    }
  }

  lemma PoisonedIn(mem: seq<byte>, a: nat, n: nat)
    requires a + n <= |mem|
    ensures Poisoned(At(mem, a, n)) <==> forall j :: a + LINK_SIZE <= j < a + n ==> mem[j] == POISON_PATTERN
  {
    var w := At(mem, a, n);
    if Poisoned(w) {
      forall j | a + LINK_SIZE <= j < a + n
        ensures mem[j] == POISON_PATTERN
      {
        assert mem[j] == w[j - a];
      }
    }
  }

  /** Painting, clearing the magic and linking together make a free chunk. */
  lemma FreedBytes(m0: seq<byte>, m1: seq<byte>, a: nat, n: nat, link: nat)
    requires HDR_SIZE <= n && a + n <= |m0| == |m1|
    requires forall j :: 0 <= j < |m0| ==> m1[j] == if a + LINK_SIZE <= j < a + n then POISON_PATTERN else m0[j]
    ensures Splice(Splice(m1, a + 4, Enc(0, 4)), a, Enc(link, 8)) == Splice(m0, a, MakeFree(At(m0, a, n), link))
  {
    hide Enc;
    var left := Splice(Splice(m1, a + 4, Enc(0, 4)), a, Enc(link, 8));
    var right := Splice(m0, a, MakeFree(At(m0, a, n), link));
    forall j | 0 <= j < |m0|
      ensures left[j] == right[j]
    {
    }
  }

  lemma SlicedBytes(m0: seq<byte>, m1: seq<byte>, a: nat, n: nat, link: nat)
    requires HDR_SIZE <= n && a + n <= |m0| == |m1|
    requires forall j :: 0 <= j < |m0| ==> m1[j] == if a + LINK_SIZE <= j < a + n then POISON_PATTERN else m0[j]
    ensures Splice(m1, a, Enc(link, 8)) == Splice(m0, a, MakeFree(At(m0, a, n), link))
  {
    hide Enc;
    var left := Splice(m1, a, Enc(link, 8));
    var right := Splice(m0, a, MakeFree(At(m0, a, n), link));
    forall j | 0 <= j < |m0|
      ensures left[j] == right[j]
    {
    }
  }

  /** Two stores side by side are one. */
  lemma SpliceTwice(m: seq<byte>, a: nat, v: seq<byte>, w: seq<byte>)
    requires a + |v| + |w| <= |m|
    ensures Splice(Splice(m, a, v), a + |v|, w) == Splice(m, a, v + w)
  {
  }

  lemma LargeBytes(m: seq<byte>, a: nat, npages: nat)
    requires a + 8 <= |m|
    ensures Splice(Splice(Splice(m, a, Enc(BUCKET_LARGE, 2)), a + 2, Enc(npages, 2)), a + 4, Enc(HDR_MAGIC, 4))
         == Splice(m, a, LargeHeader(npages))
  {
    hide Enc, Splice;
    SpliceTwice(m, a, Enc(BUCKET_LARGE, 2), Enc(npages, 2));
    SpliceTwice(m, a, Enc(BUCKET_LARGE, 2) + Enc(npages, 2), Enc(HDR_MAGIC, 4));
  }

  lemma HeaderBytes(m: seq<byte>, a: nat, b: nat, size: nat)
    requires a + HDR_SIZE <= |m|
    ensures Splice(Splice(Splice(Splice(m, a, Enc(b, 2)), a + 2, Enc(0, 2)), a + 4, Enc(HDR_MAGIC, 4)), a + 8, Enc(size, 8))
         == Splice(m, a, Enc(b, 2) + Enc(0, 2) + Enc(HDR_MAGIC, 4) + Enc(size, 8))
  {
    hide Enc, Splice;
    SpliceTwice(m, a, Enc(b, 2), Enc(0, 2));
    SpliceTwice(m, a, Enc(b, 2) + Enc(0, 2), Enc(HDR_MAGIC, 4));
    SpliceTwice(m, a, Enc(b, 2) + Enc(0, 2) + Enc(HDR_MAGIC, 4), Enc(size, 8));
  }

  lemma PaintIsSplice(m0: seq<byte>, m1: seq<byte>, lo: nat, n: nat, v: byte)
    requires lo + n <= |m0| == |m1|
    requires forall j :: 0 <= j < |m0| ==> m1[j] == if lo <= j < lo + n then v else m0[j]
    ensures m1 == Splice(m0, lo, Fill(n, v))
  {
  }

  /** Storing what is already there changes nothing. */
  lemma SpliceOwn(m: seq<byte>, a: nat, v: seq<byte>, n: nat)
    requires a + |v| + n <= |m|
    ensures Splice(m, a, v) == Splice(m, a, v + At(m, a + |v|, n))
  {
  }

  /** Header and red zone together make a live chunk. */
  lemma DressedBytes(m0: seq<byte>, m4: seq<byte>, m5: seq<byte>, a: nat, n: nat, b: nat, size: nat)
    requires HDR_SIZE + size <= n && a + n <= |m0| == |m4| == |m5|
    requires m4 == Splice(Splice(Splice(Splice(m0, a, Enc(b, 2)), a + 2, Enc(0, 2)), a + 4, Enc(HDR_MAGIC, 4)), a + 8, Enc(size, 8))
    requires forall j :: 0 <= j < |m0| ==> m5[j] == if a + HDR_SIZE + size <= j < a + n then RZ_PATTERN else m4[j]
    ensures m5 == Splice(m0, a, MakeLive(At(m0, a, n), b, size))
  {
    hide Enc, Splice, Fill;
    var hdr := Enc(b, 2) + Enc(0, 2) + Enc(HDR_MAGIC, 4) + Enc(size, 8);
    var zone := Fill(n - HDR_SIZE - size, RZ_PATTERN);
    HeaderBytes(m0, a, b, size);
    SpliceOwn(m0, a, hdr, size);
    PaintIsSplice(m4, m5, a + HDR_SIZE + size, n - HDR_SIZE - size, RZ_PATTERN);
    SpliceTwice(m0, a, hdr + At(m0, a + HDR_SIZE, size), zone);
    assert At(m0, a + HDR_SIZE, size) == At(m0, a, n)[HDR_SIZE..HDR_SIZE + size];
    assert MakeLive(At(m0, a, n), b, size) == hdr + At(m0, a + HDR_SIZE, size) + zone;
  }
}
