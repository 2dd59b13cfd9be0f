/** Every run of the kernel heap (kern/kmem.c): allocations, frees and stores by code
    that may do anything but overwrite a header or a link.  Beside the bytes the state
    keeps the books the kernel does not: which chunks exist, who has them, and each
    freelist in order. */
module HeapRuns {
  import opened HeapBytes
  import opened Heap

  datatype Use = Free(b: nat) | Live(b: nat, size: nat) | Large(size: nat)

  datatype Chunk = Chunk(extent: nat, use: Use)

  datatype Stop = Running | Stopped(why: Panic)

  /** The bytes and heads are the kernel's; `chunks` and `lists` are the books. */
  datatype State = State(heap: Heap, chunks: map<nat, Chunk>, lists: seq<seq<nat>>, stop: Stop)

  datatype Action =
    | Alloc(size: nat, page: nat)   // `page`: what the page allocator has, 0 for nothing
    | Release(p: nat)               // kfree
    | Store(a: nat, v: byte)        // anybody's store

  // ---- what holds a heap together -----------------------------------------------------

  ghost predicate ChunkFits(mem: seq<byte>, a: nat, c: Chunk) {
    && 0 < a && HDR_SIZE <= c.extent && a + c.extent <= |mem|
    && match c.use
       case Free(b) => b < NBUCKETS && c.extent == BucketSize(b)
       case Live(b, size) => b < NBUCKETS && c.extent == BucketSize(b) && HDR_SIZE + size <= c.extent
       case Large(size) => a % PAGE_SIZE == 0 && HDR_SIZE + size <= c.extent < HDR_SIZE + size + PAGE_SIZE
  }

  ghost predicate Fits(s: State) {
    forall a :: a in s.chunks ==> ChunkFits(s.heap.mem, a, s.chunks[a])
  }

  ghost predicate Disjoint(chunks: map<nat, Chunk>) {
    forall a, c :: a in chunks && c in chunks && a != c ==> Apart(a, chunks[a].extent, c, chunks[c].extent)
  }

  /** The kernel's own words in a chunk it has handed out. */
  ghost predicate HeaderOk(w: seq<byte>, u: Use) {
    && |w| >= HDR_SIZE
    && match u
       case Free(_) => true
       case Live(b, size) => HeaderIs(w, b, size)
       case Large(_) => Bucket(w) == BUCKET_LARGE && Magic(w) == HDR_MAGIC && RunPages(w) * PAGE_SIZE == |w|
  }

  ghost predicate Headers(s: State)
    requires Fits(s)
  {
    forall a :: a in s.chunks ==> HeaderOk(At(s.heap.mem, a, s.chunks[a].extent), s.chunks[a].use)
  }

  /** `l` is the freelist that starts at `head`, read off the links. */
  ghost predicate Chain(mem: seq<byte>, head: nat, l: seq<nat>, n: nat)
    requires HDR_SIZE <= n
    decreases |l|
  {
    if l == [] then head == 0
    else head == l[0] && head + n <= |mem| && Chain(mem, Link(At(mem, head, n)), l[1..], n)
  }

  ghost predicate NoDuplicates(l: seq<nat>) {
    forall i, j :: 0 <= i < j < |l| ==> l[i] != l[j]
  }

  /** Bucket `b`'s freelist holds exactly the bucket's free chunks, each once. */
  ghost predicate ListOk(s: State, b: nat)
    requires b < NBUCKETS && |s.lists| == |s.heap.heads| == NBUCKETS
  {
    && Chain(s.heap.mem, s.heap.heads[b], s.lists[b], BucketSize(b))
    && NoDuplicates(s.lists[b])
    && forall a :: a in s.lists[b] <==> a in s.chunks && s.chunks[a].use == Free(b)
  }

  ghost predicate Lists(s: State) {
    && |s.lists| == |s.heap.heads| == NBUCKETS
    && forall b :: 0 <= b < NBUCKETS ==> ListOk(s, b)
  }

  ghost predicate Struct(s: State) {
    |s.heap.mem| <= GIB4 && Fits(s) && Disjoint(s.chunks) && Headers(s) && Lists(s)
  }

  /** The patterns are all in place. */
  ghost predicate CleanChunk(w: seq<byte>, u: Use) {
    match u
    case Free(_) => Poisoned(w)
    case Live(_, size) => Zoned(w, size)
    case Large(_) => true
  }

  ghost predicate Clean(s: State) {
    Fits(s) && forall a :: a in s.chunks ==> CleanChunk(At(s.heap.mem, a, s.chunks[a].extent), s.chunks[a].use)
  }

  // ---- frames ------------------------------------------------------------------------

  lemma {:induction false} ChainKept(mem: seq<byte>, after: seq<byte>, head: nat, l: seq<nat>, n: nat)
    requires HDR_SIZE <= n && |after| == |mem| && Chain(mem, head, l, n)
    requires forall a :: a in l ==> a + n <= |mem| && Link(At(after, a, n)) == Link(At(mem, a, n))
    ensures Chain(after, head, l, n)
    decreases |l|
  {
    hide At, Link;
    if l != [] {
      assert l[0] in l;
      assert forall a :: a in l[1..] ==> a in l;
      ChainKept(mem, after, Link(At(mem, head, n)), l[1..], n);
    }
  }

  /** A chunk is rewritten in its own bytes: every other chunk keeps its own. */
  lemma OthersKept(s: State, c: nat, w: seq<byte>, a: nat)
    requires Fits(s) && a in s.chunks && c + |w| <= |s.heap.mem| && Apart(a, s.chunks[a].extent, c, |w|)
    ensures At(Splice(s.heap.mem, c, w), a, s.chunks[a].extent) == At(s.heap.mem, a, s.chunks[a].extent)
  {
    assert ChunkFits(s.heap.mem, a, s.chunks[a]);
    SpliceApart(s.heap.mem, c, w, a, s.chunks[a].extent);
  }

  /** A head is a chunk's address or zero. */
  lemma HeadFits(s: State, b: nat)
    requires Struct(s) && b < NBUCKETS
    ensures s.heap.heads[b] < GIB4
    ensures s.heap.heads[b] != 0 ==> s.lists[b] != [] && s.lists[b][0] == s.heap.heads[b]
    ensures s.heap.heads[b] == 0 ==> s.lists[b] == []
  {
    assert ListOk(s, b);
    if s.lists[b] != [] {
      assert s.lists[b][0] in s.lists[b];
      assert ChunkFits(s.heap.mem, s.lists[b][0], s.chunks[s.lists[b][0]]);
    }
  }

  // ---- a chunk goes onto its freelist --------------------------------------------------

  /** `c` is not free, and its bytes are nobody else's. */
  ghost predicate CanPush(s: State, b: nat, c: nat) {
    && b < NBUCKETS && 0 < c && c + BucketSize(b) <= |s.heap.mem| && |s.heap.heads| == |s.lists| == NBUCKETS
    && (c in s.chunks ==> !s.chunks[c].use.Free?)
    && forall a :: a in s.chunks && a != c ==> Apart(a, s.chunks[a].extent, c, BucketSize(b))
  }

  function Pushed(s: State, b: nat, c: nat): (u: State)
    requires b < NBUCKETS && c + BucketSize(b) <= |s.heap.mem| && |s.heap.heads| == |s.lists| == NBUCKETS
    ensures |u.heap.heads| == |u.lists| == NBUCKETS && |u.heap.mem| == |s.heap.mem| && u.stop == s.stop
  {
    s.(heap := Push(s.heap, b, c),
       chunks := s.chunks[c := Chunk(BucketSize(b), Free(b))],
       lists := s.lists[b := [c] + s.lists[b]])
  }

  /** Every other chunk's bytes after a push. */
  lemma PushedOthers(s: State, b: nat, c: nat, a: nat)
    requires Struct(s) && CanPush(s, b, c) && a in s.chunks && a != c
    ensures At(Pushed(s, b, c).heap.mem, a, s.chunks[a].extent) == At(s.heap.mem, a, s.chunks[a].extent)
    ensures ChunkFits(Pushed(s, b, c).heap.mem, a, s.chunks[a])
  {
    hide MakeFree, Splice, At, Headers, Lists, Disjoint;
    assert ChunkFits(s.heap.mem, a, s.chunks[a]);
    OthersKept(s, c, MakeFree(At(s.heap.mem, c, BucketSize(b)), s.heap.heads[b]), a);
  }

  lemma PushedFits(s: State, b: nat, c: nat)
    requires Struct(s) && CanPush(s, b, c)
    ensures Fits(Pushed(s, b, c)) && Disjoint(Pushed(s, b, c).chunks)
  {
    hide Push, Headers, Lists;
    var u := Pushed(s, b, c);
    forall a | a in u.chunks
      ensures ChunkFits(u.heap.mem, a, u.chunks[a])
    {
      if a != c { PushedOthers(s, b, c, a); }
    }
  }

  /** The pushed chunk itself: its link is the old head, the rest is poison. */
  lemma PushedChunk(s: State, b: nat, c: nat)
    requires Struct(s) && CanPush(s, b, c)
    ensures var w := At(Pushed(s, b, c).heap.mem, c, BucketSize(b)); Link(w) == s.heap.heads[b] && Poisoned(w)
  {
    hide MakeFree, Splice, Link, Headers, Lists, Disjoint, Fits, Poisoned;
    var was := At(s.heap.mem, c, BucketSize(b));
    HeadFits(s, b);
    FreeReadsBack(was, s.heap.heads[b]);
  }

  lemma PushedLists(s: State, b: nat, c: nat)
    requires Struct(s) && CanPush(s, b, c)
    ensures Lists(Pushed(s, b, c))
  {
    hide Splice, MakeFree, Headers, Disjoint, Link, At, Chain, NoDuplicates;
    var u := Pushed(s, b, c);
    PushedChunk(s, b, c);
    forall k | 0 <= k < NBUCKETS
      ensures ListOk(u, k)
    {
      assert ListOk(s, k);
      ChainAfterPush(s, b, c, k);
      if k == b {
        LongerChain(u.heap.mem, c, s.lists[b], BucketSize(b));
        assert forall a :: a in u.lists[b] <==> a == c || a in s.lists[b];
      }
    }
  }

  /** The old list of any bucket still reads off the links. */
  lemma ChainAfterPush(s: State, b: nat, c: nat, k: nat)
    requires Struct(s) && CanPush(s, b, c) && k < NBUCKETS
    ensures Chain(Pushed(s, b, c).heap.mem, s.heap.heads[k], s.lists[k], BucketSize(k))
    ensures c !in s.lists[k]
  {
    hide Push, Headers, Disjoint, Link, At, Chain, NoDuplicates;
    var u := Pushed(s, b, c);
    assert ListOk(s, k);
    forall a | a in s.lists[k]
      ensures a + BucketSize(k) <= |s.heap.mem| && At(u.heap.mem, a, BucketSize(k)) == At(s.heap.mem, a, BucketSize(k))
    {
      assert ChunkFits(s.heap.mem, a, s.chunks[a]);
      PushedOthers(s, b, c, a);
    }
    ChainKept(s.heap.mem, u.heap.mem, s.heap.heads[k], s.lists[k], BucketSize(k));
  }

  lemma LongerChain(mem: seq<byte>, c: nat, l: seq<nat>, n: nat)
    requires HDR_SIZE <= n && c + n <= |mem| && Chain(mem, Link(At(mem, c, n)), l, n)
    requires NoDuplicates(l) && c !in l
    ensures Chain(mem, c, [c] + l, n) && NoDuplicates([c] + l)
  {
    assert ([c] + l)[1..] == l;
  }

  lemma PushedHeaders(s: State, b: nat, c: nat)
    requires Struct(s) && CanPush(s, b, c)
    ensures Fits(Pushed(s, b, c)) && Headers(Pushed(s, b, c))
    ensures Clean(s) ==> Clean(Pushed(s, b, c))
  {
    hide Push, Lists, Disjoint, Link, At, HeaderOk, Poisoned, Zoned;
    PushedFits(s, b, c);
    PushedChunk(s, b, c);
    var u := Pushed(s, b, c);
    forall a | a in u.chunks
      ensures HeaderOk(At(u.heap.mem, a, u.chunks[a].extent), u.chunks[a].use)
      ensures Clean(s) ==> CleanChunk(At(u.heap.mem, a, u.chunks[a].extent), u.chunks[a].use)
    {
      if a != c { PushedOthers(s, b, c, a); }
      else { assert HeaderOk(At(u.heap.mem, c, BucketSize(b)), Free(b)) by { FreeHeaderOk(At(u.heap.mem, c, BucketSize(b)), b); } }
    }
  }

  lemma FreeHeaderOk(w: seq<byte>, b: nat)
    requires |w| >= HDR_SIZE
    ensures HeaderOk(w, Free(b))
  {
  }

  lemma PushKeeps(s: State, b: nat, c: nat)
    requires Struct(s) && CanPush(s, b, c)
    ensures Struct(Pushed(s, b, c))
    ensures Clean(s) ==> Clean(Pushed(s, b, c))
  {
    hide Lists, Disjoint, Fits, Headers, Clean;
    PushedFits(s, b, c);
    PushedHeaders(s, b, c);
    PushedLists(s, b, c);
  }

  // ---- a page becomes chunks -----------------------------------------------------------

  /** The first `n` chunks of a page pushed, in the order refill_bucket takes them. */
  function Refilled(s: State, b: nat, page: nat, n: nat): (u: State)
    requires b < NBUCKETS && |s.heap.heads| == |s.lists| == NBUCKETS && page + Offset(b, n) <= |s.heap.mem|
    ensures |u.heap.heads| == |u.lists| == NBUCKETS && |u.heap.mem| == |s.heap.mem|
    ensures u.heap == Refill(s.heap, b, page, n)
  {
    if n == 0 then s
    else
      NextOffset(b, n);
      Pushed(Refilled(s, b, page, n - 1), b, page + Offset(b, n - 1))
  }

  /** No chunk meets the bytes from `lo` up to `hi`. */
  ghost predicate Fresh(chunks: map<nat, Chunk>, lo: nat, hi: nat) {
    forall a :: a in chunks ==> Apart(a, chunks[a].extent, lo, if lo <= hi then hi - lo else 0)
  }

  lemma FreshRest(s: State, b: nat, lo: nat, hi: nat)
    requires Struct(s) && b < NBUCKETS && |s.heap.heads| == |s.lists| == NBUCKETS
    requires 0 < lo && lo + BucketSize(b) <= hi <= |s.heap.mem| && Fresh(s.chunks, lo, hi)
    ensures CanPush(s, b, lo)
    ensures Fresh(Pushed(s, b, lo).chunks, lo + BucketSize(b), hi)
  {
    hide Push, Headers, Disjoint, Lists;
    assert lo in s.chunks ==> ChunkFits(s.heap.mem, lo, s.chunks[lo]);
    forall a | a in Pushed(s, b, lo).chunks
      ensures Apart(a, Pushed(s, b, lo).chunks[a].extent, lo + BucketSize(b), hi - lo - BucketSize(b))
    {
      if a != lo { assert ChunkFits(s.heap.mem, a, s.chunks[a]); }
    }
  }

  lemma {:induction false} RefillKeeps(s: State, b: nat, page: nat, n: nat, hi: nat)
    requires Struct(s) && |s.heap.heads| == |s.lists| == NBUCKETS
    requires b < NBUCKETS && 0 < page && page + Offset(b, n) <= hi <= |s.heap.mem|
    requires Fresh(s.chunks, page, hi)
    ensures var u := Refilled(s, b, page, n);
            Struct(u) && Fresh(u.chunks, page + Offset(b, n), hi) && (Clean(s) ==> Clean(u)) && u.stop == s.stop
    decreases n
  {
    hide Struct, Fresh, Pushed, Clean, Offset;
    if n == 0 {
      RefilledNone(s, b, page);
    } else {
      NextOffset(b, n);
      RefillKeeps(s, b, page, n - 1, hi);
      var u := Refilled(s, b, page, n - 1);
      var c := page + Offset(b, n - 1);
      FreshRest(u, b, c, hi);
      PushKeeps(u, b, c);
      assert Refilled(s, b, page, n) == Pushed(u, b, c);
      assert page + Offset(b, n) == c + BucketSize(b);
    }
  }

  // ---- one chunk changes ---------------------------------------------------------------

  /** Only the chunk at `c` is new, gone or rewritten; the rest keep book and bytes. */
  ghost predicate OnlyAt(s: State, u: State, c: nat)
    requires Fits(s)
  {
    && |u.heap.mem| == |s.heap.mem|
    && u.chunks.Keys - {c} == s.chunks.Keys - {c}
    && forall a :: a in s.chunks && a != c ==>
         ChunkFits(s.heap.mem, a, s.chunks[a]) && a in u.chunks && u.chunks[a] == s.chunks[a]
         && At(u.heap.mem, a, s.chunks[a].extent) == At(s.heap.mem, a, s.chunks[a].extent)
  }

  lemma OnlyAtFits(s: State, u: State, c: nat)
    requires Struct(s) && OnlyAt(s, u, c)
    requires c in u.chunks ==> ChunkFits(u.heap.mem, c, u.chunks[c])
    ensures Fits(u)
  {
    hide At, Headers, Lists, Disjoint;
    forall a | a in u.chunks
      ensures ChunkFits(u.heap.mem, a, u.chunks[a])
    {
      if a != c { assert a in u.chunks.Keys - {c}; }
    }
  }

  lemma OnlyAtDisjoint(s: State, u: State, c: nat)
    requires Struct(s) && OnlyAt(s, u, c)
    requires c in u.chunks ==> forall a :: a in s.chunks && a != c ==> Apart(a, s.chunks[a].extent, c, u.chunks[c].extent)
    ensures Disjoint(u.chunks)
  {
    hide At, Headers, Lists, Fits, ChunkFits;
    forall a, d | a in u.chunks && d in u.chunks && a != d
      ensures Apart(a, u.chunks[a].extent, d, u.chunks[d].extent)
    {
      assert a != c ==> a in u.chunks.Keys - {c};
      assert d != c ==> d in u.chunks.Keys - {c};
    }
  }

  lemma OnlyAtHeaders(s: State, u: State, c: nat)
    requires Struct(s) && OnlyAt(s, u, c) && Fits(u)
    requires c in u.chunks ==> HeaderOk(At(u.heap.mem, c, u.chunks[c].extent), u.chunks[c].use)
    ensures Headers(u)
  {
    hide At, Lists, Disjoint, HeaderOk;
    forall a | a in u.chunks
      ensures HeaderOk(At(u.heap.mem, a, u.chunks[a].extent), u.chunks[a].use)
    {
      if a != c { assert a in u.chunks.Keys - {c}; }
    }
  }

  lemma OnlyAtClean(s: State, u: State, c: nat)
    requires Struct(s) && OnlyAt(s, u, c) && Fits(u) && Clean(s)
    requires c in u.chunks ==> CleanChunk(At(u.heap.mem, c, u.chunks[c].extent), u.chunks[c].use)
    ensures Clean(u)
  {
    hide At, Lists, Disjoint, Headers, CleanChunk;
    forall a | a in u.chunks
      ensures CleanChunk(At(u.heap.mem, a, u.chunks[a].extent), u.chunks[a].use)
    {
      if a != c { assert a in u.chunks.Keys - {c}; }
    }
  }

  /** A stretch of a freelist that does not pass through `c` still reads the same. */
  lemma OnlyAtChain(s: State, u: State, c: nat, b: nat, head: nat, l: seq<nat>)
    requires Struct(s) && OnlyAt(s, u, c) && b < NBUCKETS
    requires Chain(s.heap.mem, head, l, BucketSize(b))
    requires forall a :: a in l ==> a != c && a in s.chunks && s.chunks[a].use == Free(b)
    ensures Chain(u.heap.mem, head, l, BucketSize(b))
  {
    hide At, Lists, Disjoint, Headers, Chain;
    forall a | a in l
      ensures a + BucketSize(b) <= |s.heap.mem| && At(u.heap.mem, a, BucketSize(b)) == At(s.heap.mem, a, BucketSize(b))
    {
      assert ChunkFits(s.heap.mem, a, s.chunks[a]);
    }
    ChainKept(s.heap.mem, u.heap.mem, head, l, BucketSize(b));
  }

  /** The freelists stay, if `c` was on none and is on none. */
  lemma OnlyAtLists(s: State, u: State, c: nat)
    requires Struct(s) && OnlyAt(s, u, c) && u.lists == s.lists && u.heap.heads == s.heap.heads
    requires c in s.chunks ==> !s.chunks[c].use.Free?
    requires c in u.chunks ==> !u.chunks[c].use.Free?
    ensures Lists(u)
  {
    hide At, Disjoint, Headers, Chain, ChunkFits, NoDuplicates;
    forall b | 0 <= b < NBUCKETS
      ensures ListOk(u, b)
    {
      assert ListOk(s, b);
      OnlyAtChain(s, u, c, b, s.heap.heads[b], s.lists[b]);
      forall a
        ensures a in u.lists[b] <==> a in u.chunks && u.chunks[a].use == Free(b)
      {
        assert a != c ==> (a in u.chunks.Keys - {c} <==> a in s.chunks.Keys - {c});
      }
    }
  }

  /** Splicing inside `c`'s own bytes. */
  lemma SplicedOnlyAt(s: State, u: State, c: nat, at: nat, w: seq<byte>)
    requires Struct(s) && at + |w| <= |s.heap.mem| && u.heap.mem == Splice(s.heap.mem, at, w)
    requires u.chunks.Keys - {c} == s.chunks.Keys - {c}
    requires forall a :: a in s.chunks && a != c ==>
               a in u.chunks && u.chunks[a] == s.chunks[a] && Apart(a, s.chunks[a].extent, at, |w|)
    ensures OnlyAt(s, u, c)
  {
    hide At, Splice, Lists, Disjoint, Headers;
    forall a | a in s.chunks && a != c
      ensures ChunkFits(s.heap.mem, a, s.chunks[a])
      ensures At(u.heap.mem, a, s.chunks[a].extent) == At(s.heap.mem, a, s.chunks[a].extent)
    {
      assert ChunkFits(s.heap.mem, a, s.chunks[a]);
      OthersKept(s, at, w, a);
    }
  }

  // ---- the head of a freelist is handed out ------------------------------------------------

  ghost predicate CanPop(s: State, b: nat, size: nat) {
    && b < NBUCKETS && |s.heap.heads| == |s.lists| == NBUCKETS && HDR_SIZE + size <= BucketSize(b)
    && s.lists[b] != [] && s.heap.heads[b] == s.lists[b][0] && s.lists[b][0] + BucketSize(b) <= |s.heap.mem|
  }

  ghost function Popped(s: State, b: nat, size: nat): (u: State)
    requires CanPop(s, b, size)
    ensures |u.heap.mem| == |s.heap.mem|
  {
    var c := s.lists[b][0];
    var w := At(s.heap.mem, c, BucketSize(b));
    s.(heap := Heap(Splice(s.heap.mem, c, MakeLive(w, b, size)), s.heap.heads[b := Link(w)]),
       chunks := s.chunks[c := Chunk(BucketSize(b), Live(b, size))],
       lists := s.lists[b := s.lists[b][1..]])
  }

  lemma HeadIsFree(s: State, b: nat, size: nat)
    requires Struct(s) && CanPop(s, b, size)
    ensures s.lists[b][0] in s.chunks && s.chunks[s.lists[b][0]] == Chunk(BucketSize(b), Free(b))
    ensures 0 < s.lists[b][0]
  {
    hide At, Disjoint, Headers, Chain, NoDuplicates;
    var c := s.lists[b][0];
    assert ListOk(s, b);
    assert c in s.lists[b];
    assert ChunkFits(s.heap.mem, c, s.chunks[c]);
  }

  lemma PoppedOnlyAt(s: State, b: nat, size: nat)
    requires Struct(s) && CanPop(s, b, size)
    ensures OnlyAt(s, Popped(s, b, size), s.lists[b][0])
  {
    hide At, Splice, Headers, Lists, MakeLive, Link;
    var c := s.lists[b][0];
    HeadIsFree(s, b, size);
    SplicedOnlyAt(s, Popped(s, b, size), c, c, MakeLive(At(s.heap.mem, c, BucketSize(b)), b, size));
  }

  lemma PoppedLists(s: State, b: nat, size: nat)
    requires Struct(s) && CanPop(s, b, size)
    ensures Lists(Popped(s, b, size))
  {
    hide At, Disjoint, Headers, ChunkFits, MakeLive, Splice, Link;
    var u := Popped(s, b, size);
    var c := s.lists[b][0];
    HeadIsFree(s, b, size);
    PoppedOnlyAt(s, b, size);
    forall k | 0 <= k < NBUCKETS
      ensures ListOk(u, k)
    {
      PoppedList(s, b, size, k);
    }
  }

  lemma PoppedList(s: State, b: nat, size: nat, k: nat)
    requires Struct(s) && CanPop(s, b, size) && k < NBUCKETS && OnlyAt(s, Popped(s, b, size), s.lists[b][0])
    ensures ListOk(Popped(s, b, size), k)
  {
    hide At, Disjoint, Headers, ChunkFits, MakeLive, Splice, Link;
    var u := Popped(s, b, size);
    var c := s.lists[b][0];
    HeadIsFree(s, b, size);
    assert ListOk(s, k);
    assert s.lists[b] == [c] + s.lists[b][1..];
    assert k == b ==> c !in u.lists[b];
    OnlyAtChain(s, u, c, k, u.heap.heads[k], u.lists[k]);
  }

  lemma PopKeeps(s: State, b: nat, size: nat)
    requires Struct(s) && CanPop(s, b, size)
    ensures Struct(Popped(s, b, size)) && (Clean(s) ==> Clean(Popped(s, b, size)))
  {
    hide At, Disjoint, Headers, Splice, Link, Lists, HeaderIs, Fits, OnlyAt;
    var u := Popped(s, b, size);
    var c := s.lists[b][0];
    var w := At(s.heap.mem, c, BucketSize(b));
    HeadIsFree(s, b, size);
    PoppedOnlyAt(s, b, size);
    LiveReadsBack(w, b, size);
    assert At(u.heap.mem, c, BucketSize(b)) == MakeLive(w, b, size);
    OnlyAtFits(s, u, c);
    OnlyAtHeaders(s, u, c);
    if Clean(s) { OnlyAtClean(s, u, c); }
    assert Disjoint(u.chunks) by { SameExtent(s.chunks, c, u.chunks[c]); }
    PoppedLists(s, b, size);
  }

  lemma SameExtent(chunks: map<nat, Chunk>, c: nat, k: Chunk)
    requires Disjoint(chunks) && c in chunks && chunks[c].extent == k.extent
    ensures Disjoint(chunks[c := k])
  {
  }

  // ---- whole pages come and go ----------------------------------------------------------

  lemma LargeReadsBack(w: seq<byte>, npages: nat)
    requires |w| >= HDR_SIZE && w[..8] == LargeHeader(npages) && npages <= 0xFFFF
    ensures Bucket(w) == BUCKET_LARGE && Magic(w) == HDR_MAGIC && RunPages(w) == npages
  {
    hide Enc, Dec, Pow256;
    Widths();
    DecEnc(BUCKET_LARGE, 2);
    DecEnc(npages, 2);
    DecEnc(HDR_MAGIC, 4);
    assert w[..8][..2] == w[..2] && w[..8][2..4] == w[2..4] && w[..8][4..8] == w[4..8];
    assert LargeHeader(npages)[..2] == Enc(BUCKET_LARGE, 2);
    assert LargeHeader(npages)[2..4] == Enc(npages, 2);
    assert LargeHeader(npages)[4..8] == Enc(HDR_MAGIC, 4);
  }

  function LargeTaken(s: State, size: nat, page: nat): (u: State)
    requires page + Pages(size + HDR_SIZE) * PAGE_SIZE <= |s.heap.mem|
  {
    var npages := Pages(size + HDR_SIZE);
    LargeFits(size);
    s.(heap := s.heap.(mem := Splice(s.heap.mem, page, LargeHeader(npages))),
       chunks := s.chunks[page := Chunk(npages * PAGE_SIZE, Large(size))])
  }

  lemma LargeKeeps(s: State, size: nat, page: nat)
    requires Struct(s) && 0 < page && page % PAGE_SIZE == 0
    requires page + Pages(size + HDR_SIZE) * PAGE_SIZE <= |s.heap.mem| && Pages(size + HDR_SIZE) <= 0xFFFF
    requires Fresh(s.chunks, page, page + Pages(size + HDR_SIZE) * PAGE_SIZE)
    ensures Struct(LargeTaken(s, size, page)) && (Clean(s) ==> Clean(LargeTaken(s, size, page)))
  {
    hide Splice, At, Headers, Lists, Disjoint, LargeHeader, OnlyAt, Pages, Bucket, Magic, RunPages;
    var u := LargeTaken(s, size, page);
    var extent := Pages(size + HDR_SIZE) * PAGE_SIZE;
    LargeFits(size);
    assert page !in s.chunks by { FreshIsNew(s, page, page + extent); }
    SplicedOnlyAt(s, u, page, page, LargeHeader(Pages(size + HDR_SIZE)));
    assert At(u.heap.mem, page, extent)[..8] == LargeHeader(Pages(size + HDR_SIZE)) by { LargeStart(s, size, page); }
    LargeReadsBack(At(u.heap.mem, page, extent), Pages(size + HDR_SIZE));
    OnlyAtFits(s, u, page);
    OnlyAtDisjoint(s, u, page);
    OnlyAtHeaders(s, u, page);
    OnlyAtLists(s, u, page);
    if Clean(s) { OnlyAtClean(s, u, page); }
  }

  lemma FreshIsNew(s: State, lo: nat, hi: nat)
    requires Fits(s) && Fresh(s.chunks, lo, hi) && lo < hi
    ensures lo !in s.chunks
  {
    assert lo in s.chunks ==> ChunkFits(s.heap.mem, lo, s.chunks[lo]);
  }

  lemma LargeStart(s: State, size: nat, page: nat)
    requires page + Pages(size + HDR_SIZE) * PAGE_SIZE <= |s.heap.mem|
    ensures HDR_SIZE <= Pages(size + HDR_SIZE) * PAGE_SIZE
    ensures At(LargeTaken(s, size, page).heap.mem, page, Pages(size + HDR_SIZE) * PAGE_SIZE)[..8]
         == LargeHeader(Pages(size + HDR_SIZE))
  {
    hide Pages, LargeHeader;
    LargeFits(size);
    var extent := Pages(size + HDR_SIZE) * PAGE_SIZE;
    var m := LargeTaken(s, size, page).heap.mem;
    assert At(m, page, extent)[..8] == At(m, page, 8);
  }

  function LargeGone(s: State, a: nat): State
    requires a + HDR_SIZE <= |s.heap.mem|
  {
    s.(heap := s.heap.(mem := Splice(s.heap.mem, a + 4, Enc(0, 4))), chunks := s.chunks - {a})
  }

  lemma LargeGoneKeeps(s: State, a: nat)
    requires Struct(s) && a in s.chunks && s.chunks[a].use.Large?
    requires a + HDR_SIZE <= |s.heap.mem|
    ensures Struct(LargeGone(s, a)) && (Clean(s) ==> Clean(LargeGone(s, a)))
  {
    hide Splice, At, Headers, Lists, OnlyAt, Enc;
    var u := LargeGone(s, a);
    assert ChunkFits(s.heap.mem, a, s.chunks[a]);
    SplicedOnlyAt(s, u, a, a + 4, Enc(0, 4));
    OnlyAtFits(s, u, a);
    OnlyAtDisjoint(s, u, a);
    OnlyAtHeaders(s, u, a);
    OnlyAtLists(s, u, a);
    if Clean(s) { OnlyAtClean(s, u, a); }
  }

  // ---- anybody's store -------------------------------------------------------------------

  /** The byte at `j` is part of a live header or a free chunk's link. */
  ghost predicate Kernels(s: State, j: nat) {
    exists a :: a in s.chunks && a <= j < a + if s.chunks[a].use.Live? then HDR_SIZE else LINK_SIZE
  }

  function Stored(s: State, j: nat, v: byte): State
    requires j < |s.heap.mem|
  {
    s.(heap := s.heap.(mem := s.heap.mem[j := v]))
  }

  /** What a store does to a chunk: nothing, or one byte past the kernel's own. */
  lemma StoredChunk(s: State, j: nat, v: byte, a: nat)
    requires Struct(s) && j < |s.heap.mem| && !Kernels(s, j) && a in s.chunks
    ensures ChunkFits(s.heap.mem, a, s.chunks[a]) && ChunkFits(Stored(s, j, v).heap.mem, a, s.chunks[a])
    ensures var w := At(s.heap.mem, a, s.chunks[a].extent);
            var x := At(Stored(s, j, v).heap.mem, a, s.chunks[a].extent);
            && (HeaderOk(w, s.chunks[a].use) ==> HeaderOk(x, s.chunks[a].use))
            && (s.chunks[a].use.Free? ==> Link(x) == Link(w))
  {
    hide Headers, Lists, Disjoint, Dec;
    assert ChunkFits(s.heap.mem, a, s.chunks[a]);
    var w := At(s.heap.mem, a, s.chunks[a].extent);
    var x := At(Stored(s, j, v).heap.mem, a, s.chunks[a].extent);
    assert !(a <= j < a + if s.chunks[a].use.Live? then HDR_SIZE else LINK_SIZE);
    assert x[..8] == w[..8];
    assert x[..2] == w[..2] && x[2..4] == w[2..4] && x[4..8] == w[4..8] by {
      assert x[..8][..2] == x[..2] && x[..8][2..4] == x[2..4] && x[..8][4..8] == x[4..8];
    }
    assert s.chunks[a].use.Live? ==> x[8..16] == w[8..16];
  }

  lemma StoreKeeps(s: State, j: nat, v: byte)
    requires Struct(s) && j < |s.heap.mem| && !Kernels(s, j)
    ensures Struct(Stored(s, j, v))
  {
    hide At, HeaderOk, Link, Chain, Kernels, Stored;
    var u := Stored(s, j, v);
    assert u.chunks == s.chunks && u.lists == s.lists && u.heap.heads == s.heap.heads && |u.heap.mem| == |s.heap.mem|
      by { StoredFrame(s, j, v); }
    forall a | a in u.chunks
      ensures ChunkFits(u.heap.mem, a, u.chunks[a])
      ensures HeaderOk(At(u.heap.mem, a, u.chunks[a].extent), u.chunks[a].use)
    {
      StoredChunk(s, j, v, a);
    }
    forall b | 0 <= b < NBUCKETS
      ensures ListOk(u, b)
    {
      StoredList(s, j, v, b);
    }
  }

  lemma StoredFrame(s: State, j: nat, v: byte)
    requires j < |s.heap.mem|
    ensures var u := Stored(s, j, v);
            u == s.(heap := u.heap) && u.heap.heads == s.heap.heads && |u.heap.mem| == |s.heap.mem|
  {
  }

  lemma StoredList(s: State, j: nat, v: byte, b: nat)
    requires Struct(s) && j < |s.heap.mem| && !Kernels(s, j) && b < NBUCKETS
    ensures ListOk(Stored(s, j, v), b)
  {
    hide At, HeaderOk, Link, Chain, Kernels, Headers, Disjoint;
    var u := Stored(s, j, v);
    assert ListOk(s, b);
    forall a | a in s.lists[b]
      ensures a + BucketSize(b) <= |s.heap.mem|
      ensures Link(At(u.heap.mem, a, BucketSize(b))) == Link(At(s.heap.mem, a, BucketSize(b)))
    {
      assert ChunkFits(s.heap.mem, a, s.chunks[a]);
      StoredChunk(s, j, v, a);
    }
    ChainKept(s.heap.mem, u.heap.mem, s.heap.heads[b], s.lists[b], BucketSize(b));
  }

  /** The byte at `j` is inside a live payload. */
  ghost predicate InPayload(s: State, j: nat) {
    exists a :: a in s.chunks && !s.chunks[a].use.Free? && a + HDR_SIZE <= j < a + HDR_SIZE + s.chunks[a].use.size
  }

  /** A store into a live payload meets no kernel word. */
  lemma PayloadIsNotKernels(s: State, j: nat)
    requires Struct(s) && InPayload(s, j)
    ensures j < |s.heap.mem| && !Kernels(s, j)
  {
    hide Headers, Lists, HeaderOk;
    var c :| c in s.chunks && !s.chunks[c].use.Free? && c + HDR_SIZE <= j < c + HDR_SIZE + s.chunks[c].use.size;
    assert ChunkFits(s.heap.mem, c, s.chunks[c]);
    forall a | a in s.chunks
      ensures !(a <= j < a + if s.chunks[a].use.Live? then HDR_SIZE else LINK_SIZE)
    {
      assert ChunkFits(s.heap.mem, a, s.chunks[a]);
    }
  }

  /** ...and no pattern. */
  lemma PayloadStore(s: State, j: nat, v: byte)
    requires Struct(s) && Clean(s) && InPayload(s, j) && j < |s.heap.mem|
    ensures Fits(Stored(s, j, v)) && Clean(Stored(s, j, v))
  {
    hide Headers, Lists, HeaderOk;
    var c :| c in s.chunks && !s.chunks[c].use.Free? && c + HDR_SIZE <= j < c + HDR_SIZE + s.chunks[c].use.size;
    assert ChunkFits(s.heap.mem, c, s.chunks[c]);
    var u := Stored(s, j, v);
    forall a | a in u.chunks
      ensures ChunkFits(u.heap.mem, a, u.chunks[a])
      ensures CleanChunk(At(u.heap.mem, a, u.chunks[a].extent), u.chunks[a].use)
    {
      assert ChunkFits(s.heap.mem, a, s.chunks[a]);
      var w := At(s.heap.mem, a, s.chunks[a].extent);
      assert CleanChunk(w, s.chunks[a].use);
      if a != c {
        assert At(u.heap.mem, a, u.chunks[a].extent) == w;
      }
    }
  }

  // ---- what kfree makes of a chunk --------------------------------------------------------

  /** A header reads the same alone and with its chunk. */
  lemma HeaderAlone(mem: seq<byte>, a: nat, n: nat)
    requires HDR_SIZE <= n && a + n <= |mem|
    ensures var hdr := At(mem, a, HDR_SIZE);
            var w := At(mem, a, n);
            Bucket(hdr) == Bucket(w) && Magic(hdr) == Magic(w) && Size(hdr) == Size(w)
  {
    hide Dec;
    var hdr := At(mem, a, HDR_SIZE);
    var w := At(mem, a, n);
    assert hdr == w[..HDR_SIZE];
    assert hdr[..2] == w[..2];
    assert hdr[4..8] == w[4..8];
    assert hdr[8..16] == w[8..16];
  }

  /** A live chunk is taken back exactly when its red zone is whole. */
  lemma FreeingLive(s: State, a: nat)
    requires Struct(s) && a in s.chunks && s.chunks[a].use.Live?
    ensures ChunkFits(s.heap.mem, a, s.chunks[a])
    ensures VerdictOf(s.heap.mem, a)
         == if Zoned(At(s.heap.mem, a, s.chunks[a].extent), s.chunks[a].use.size)
            then InBucket(s.chunks[a].use.b) else Bad(RedZone)
  {
    hide At, Bucket, Magic, Size, Zoned, Lists, Disjoint;
    assert ChunkFits(s.heap.mem, a, s.chunks[a]);
    HeaderAlone(s.heap.mem, a, s.chunks[a].extent);
  }

  lemma FreeingLarge(s: State, a: nat)
    requires Struct(s) && a in s.chunks && s.chunks[a].use.Large?
    ensures ChunkFits(s.heap.mem, a, s.chunks[a])
    ensures VerdictOf(s.heap.mem, a) == LargeRun
  {
    hide At, Bucket, Magic, Size, Zoned, Lists, Disjoint;
    assert ChunkFits(s.heap.mem, a, s.chunks[a]);
    HeaderAlone(s.heap.mem, a, s.chunks[a].extent);
  }

  /** Any bytes at all: a kfree gets past the magic check exactly when the high half of
      the link over it spells the magic. */
  lemma SecondFreeExactly(mem: seq<byte>, a: nat)
    requires a + HDR_SIZE <= |mem|
    ensures VerdictOf(mem, a) == Bad(BadMagic) <==> Link(At(mem, a, HDR_SIZE)) / GIB4 != HDR_MAGIC
  {
    hide At, Magic, Bucket, Size, Zoned, Link;
    MagicIsHighHalf(At(mem, a, HDR_SIZE));
  }

  lemma {:induction false} LinksAreLow(mem: seq<byte>, head: nat, l: seq<nat>, n: nat, a: nat)
    requires HDR_SIZE <= n && Chain(mem, head, l, n) && a in l && |mem| <= GIB4
    ensures a + n <= |mem| && Link(At(mem, a, n)) < GIB4
    decreases |l|
  {
    hide At, Link;
    var next := Link(At(mem, head, n));
    if a == l[0] {
      assert Chain(mem, next, l[1..], n);
    } else {
      LinksAreLow(mem, next, l[1..], n, a);
    }
  }

  /** A chunk on a freelist fails the magic check: every link is below 4 GiB. */
  lemma FreeingFree(s: State, a: nat)
    requires Struct(s) && a in s.chunks && s.chunks[a].use.Free?
    ensures ChunkFits(s.heap.mem, a, s.chunks[a])
    ensures VerdictOf(s.heap.mem, a) == Bad(BadMagic)
  {
    hide At, Chain, Headers, Disjoint, VerdictOf, Dec;
    assert ChunkFits(s.heap.mem, a, s.chunks[a]);
    var b := s.chunks[a].use.b;
    assert ListOk(s, b);
    LinksAreLow(s.heap.mem, s.heap.heads[b], s.lists[b], BucketSize(b), a);
    assert Link(At(s.heap.mem, a, HDR_SIZE)) == Link(At(s.heap.mem, a, BucketSize(b))) by {
      LinkAlone(s.heap.mem, a, BucketSize(b));
    }
    SecondFreeExactly(s.heap.mem, a);
  }

  lemma LinkAlone(mem: seq<byte>, a: nat, n: nat)
    requires HDR_SIZE <= n && a + n <= |mem|
    ensures Link(At(mem, a, HDR_SIZE)) == Link(At(mem, a, n))
  {
    hide Dec;
    assert At(mem, a, HDR_SIZE)[..8] == At(mem, a, n)[..8];
  }

  // ---- the step -------------------------------------------------------------------------

  function RunLength(size: nat): nat {
    if BucketFor(size + HDR_SIZE) == NBUCKETS then Pages(size + HDR_SIZE) * PAGE_SIZE else PAGE_SIZE
  }

  /** The page allocator hands out whole pages that are nobody's. */
  ghost predicate PageOk(s: State, size: nat, page: nat) {
    page == 0 ||
    (page % PAGE_SIZE == 0 && page + RunLength(size) <= |s.heap.mem| && Fresh(s.chunks, page, page + RunLength(size)))
  }

  lemma PageExactly(b: nat)
    requires b < NBUCKETS
    ensures Offset(b, PerPage(b)) == PAGE_SIZE
  {
  }

  /** The freelist an allocation takes from: the bucket's own, or a fresh page's. */
  ghost function Ready(s: State, b: nat, page: nat): State
    requires b < NBUCKETS && |s.heap.heads| == |s.lists| == NBUCKETS
  {
    PageExactly(b);
    if s.heap.heads[b] == 0 && page != 0 && page + PAGE_SIZE <= |s.heap.mem|
    then Refilled(s, b, page, PerPage(b)) else s
  }

  /** The books after an allocation from bucket `b`. */
  ghost function Booked(s: State, b: nat, size: nat, page: nat): State
    requires b < NBUCKETS && |s.heap.heads| == |s.lists| == NBUCKETS
  {
    var t := Ready(s, b, page);
    if CanPop(t, b, size) then Popped(t, b, size) else t
  }

  ghost function Allocated(s: State, size: nat, page: nat): State
    requires |s.heap.heads| == |s.lists| == NBUCKETS && (page != 0 ==> page + RunLength(size) <= |s.heap.mem|)
  {
    match Kmalloc(s.heap, size, page)
    case Panicked(why) => s.(stop := Stopped(why))
    case Ok(heap, p) =>
      if p == 0 then s.(heap := heap)
      else if BucketFor(size + HDR_SIZE) == NBUCKETS then
        if page == 0 then s else LargeTaken(s, size, page).(heap := heap)
      else Booked(s, BucketFor(size + HDR_SIZE), size, page).(heap := heap)
  }

  ghost function Released(s: State, p: nat): State
    requires |s.heap.heads| == |s.lists| == NBUCKETS
  {
    match Kfree(s.heap, p)
    case Panicked(why) => s.(stop := Stopped(why))
    case Ok(heap, _) =>
      if p < HDR_SIZE || p - HDR_SIZE !in s.chunks then s
      else
        var a := p - HDR_SIZE;
        if s.chunks[a].use.Large? then s.(heap := heap, chunks := s.chunks - {a})
        else
          var b := s.chunks[a].use.b;
          s.(heap := heap,
             chunks := s.chunks[a := Chunk(s.chunks[a].extent, Free(b))],
             lists := if b < NBUCKETS then s.lists[b := [a] + s.lists[b]] else s.lists)
  }

  ghost function Step(s: State, a: Action): State {
    if s.stop.Stopped? || |s.heap.heads| != NBUCKETS || |s.lists| != NBUCKETS then s
    else
      match a
      case Alloc(size, page) =>
        if PageOk(s, size, page) && size + HDR_SIZE < GIB4 * GIB4 then Allocated(s, size, page) else s
      case Release(p) =>
        if p == 0 || (p >= HDR_SIZE && p - HDR_SIZE in s.chunks) then Released(s, p) else s
      case Store(j, v) =>
        if j < |s.heap.mem| && !Kernels(s, j) then Stored(s, j, v) else s
  }

  ghost function Run(s: State, acts: seq<Action>): State
    decreases |acts|
  {
    if acts == [] then s else Run(Step(s, acts[0]), acts[1..])
  }

  ghost predicate Init(s: State) {
    && |s.heap.mem| <= GIB4 && s.heap.heads == seq(NBUCKETS, i => 0)
    && s.chunks == map[] && s.lists == seq(NBUCKETS, i => []) && s.stop == Running
  }

  // ---- the calls keep the heap together ---------------------------------------------------

  /** An allocation from a freelist panics exactly when the head's poison is broken, and
      otherwise hands out the head. */
  lemma PopExactly(s: State, b: nat, size: nat)
    requires Struct(s) && CanPop(s, b, size)
    ensures Pop(s.heap, b, size) ==
            if Poisoned(At(s.heap.mem, s.lists[b][0], BucketSize(b)))
            then Ok(Popped(s, b, size).heap, s.lists[b][0] + HDR_SIZE) else Panicked(UseAfterFree)
  {
    hide At, Splice, MakeLive, Link, Poisoned, Headers, Lists, Disjoint, Fits;
  }

  lemma CanPopHead(s: State, b: nat, size: nat)
    requires Struct(s) && b < NBUCKETS && HDR_SIZE + size <= BucketSize(b) && s.heap.heads[b] != 0
    ensures CanPop(s, b, size)
  {
    hide At, Headers, Disjoint, NoDuplicates;
    HeadFits(s, b);
    assert ListOk(s, b);
    assert s.lists[b][0] in s.lists[b];
    assert ChunkFits(s.heap.mem, s.lists[b][0], s.chunks[s.lists[b][0]]);
  }

  lemma ReadyKeeps(s: State, b: nat, page: nat)
    requires Struct(s) && b < NBUCKETS
    requires page == 0 || Fresh(s.chunks, page, page + PAGE_SIZE)
    ensures var t := Ready(s, b, page); Struct(t) && (Clean(s) ==> Clean(t)) && t.stop == s.stop
  {
    hide Struct, Fresh, Refilled, Clean;
    PageExactly(b);
    Shape(s);
    if s.heap.heads[b] == 0 && page != 0 && page + PAGE_SIZE <= |s.heap.mem| {
      RefillKeeps(s, b, page, PerPage(b), page + PAGE_SIZE);
    }
  }

  lemma Shape(s: State)
    requires Struct(s)
    ensures |s.heap.heads| == |s.lists| == NBUCKETS && Fits(s)
  {
  }

  /** An allocation from a bucket, with the books beside it. */
  lemma BucketAlloc(s: State, size: nat, page: nat)
    requires Struct(s) && size > 0 && BucketFor(size + HDR_SIZE) < NBUCKETS && PageOk(s, size, page)
    ensures var b := BucketFor(size + HDR_SIZE);
            var t := Ready(s, b, page);
            && Struct(t) && t.stop == s.stop && (Clean(s) ==> Clean(t))
            && (t.heap.heads[b] == 0 ==> Kmalloc(s.heap, size, page) == Ok(t.heap, 0) && t == s)
            && (t.heap.heads[b] != 0 ==> CanPop(t, b, size) && Kmalloc(s.heap, size, page) == Pop(t.heap, b, size))
  {
    hide Struct, Refilled, Refill, Clean, Pop, CanPop, Pages;
    var b := BucketFor(size + HDR_SIZE);
    Shape(s);
    ReadyKeeps(s, b, page);
    var t := Ready(s, b, page);
    PageExactly(b);
    if t.heap.heads[b] != 0 { CanPopHead(t, b, size); }
    else if page != 0 { RefillNotEmpty(s, b, page); }
  }

  lemma RefillNotEmpty(s: State, b: nat, page: nat)
    requires Struct(s) && b < NBUCKETS && page > 0 && page + PAGE_SIZE <= |s.heap.mem|
    ensures Offset(b, PerPage(b)) == PAGE_SIZE && Refilled(s, b, page, PerPage(b)).heap.heads[b] != 0
  {
    hide Splice, MakeFree, At;
    PageExactly(b);
    assert PerPage(b) > 0;
    NextOffset(b, PerPage(b));
  }

  lemma AllocKeeps(s: State, size: nat, page: nat)
    requires Struct(s) && PageOk(s, size, page)
    ensures |s.heap.heads| == |s.lists| == NBUCKETS
    ensures var u := Allocated(s, size, page);
            Struct(u) && (Clean(s) ==> Clean(u) && u.stop == s.stop)
  {
    hide Struct, Clean, Popped, Refilled, LargeTaken, Pages;
    Shape(s);
    var b := BucketFor(size + HDR_SIZE);
    if size > 0 && b < NBUCKETS {
      BucketAlloc(s, size, page);
      BucketAllocKeeps(s, size, page);
    } else if size > 0 && page != 0 {
      LargeAllocKeeps(s, size, page);
    }
  }

  lemma BucketAllocKeeps(s: State, size: nat, page: nat)
    requires Struct(s) && size > 0 && BucketFor(size + HDR_SIZE) < NBUCKETS && PageOk(s, size, page)
    requires |s.heap.heads| == |s.lists| == NBUCKETS
    ensures var u := Allocated(s, size, page);
            Struct(u) && (Clean(s) ==> Clean(u) && u.stop == s.stop)
  {
    hide Struct, Clean, Popped, Refilled, Pages, Ready, Kmalloc, Pop, At, Poisoned;
    BucketAlloc(s, size, page);
    var b := BucketFor(size + HDR_SIZE);
    var t := Ready(s, b, page);
    if t.heap.heads[b] != 0 {
      PopExactly(t, b, size);
      PopKeeps(t, b, size);
      StopKeeps(s);
      if Clean(s) { CleanHead(t, b, size); }
      assert t.lists[b][0] + HDR_SIZE != 0;
      PoppedStop(t, b, size);
    }
  }

  lemma PoppedStop(s: State, b: nat, size: nat)
    requires CanPop(s, b, size)
    ensures Popped(s, b, size).stop == s.stop
  {
  }

  /** Stopping changes no byte and no book. */
  lemma StopKeeps(s: State)
    requires Struct(s)
    ensures forall stop :: Struct(s.(stop := stop)) && (Clean(s) ==> Clean(s.(stop := stop)))
  {
    hide At, HeaderOk, CleanChunk, Chain;
    forall stop: Stop
      ensures Struct(s.(stop := stop)) && (Clean(s) ==> Clean(s.(stop := stop)))
    {
      assert Fits(s.(stop := stop));
      forall b | 0 <= b < NBUCKETS
        ensures ListOk(s.(stop := stop), b)
      {
        assert ListOk(s, b);
      }
    }
  }

  lemma CleanHead(s: State, b: nat, size: nat)
    requires Struct(s) && Clean(s) && CanPop(s, b, size)
    ensures Poisoned(At(s.heap.mem, s.lists[b][0], BucketSize(b)))
  {
    hide At, Poisoned, Headers, Lists, Disjoint;
    HeadIsFree(s, b, size);
    assert CleanChunk(At(s.heap.mem, s.lists[b][0], BucketSize(b)), Free(b));
  }

  lemma LargeAllocKeeps(s: State, size: nat, page: nat)
    requires Struct(s) && size > 0 && BucketFor(size + HDR_SIZE) == NBUCKETS && page != 0 && PageOk(s, size, page)
    requires |s.heap.heads| == |s.lists| == NBUCKETS
    ensures var u := Allocated(s, size, page);
            Struct(u) && (Clean(s) ==> Clean(u) && u.stop == s.stop)
  {
    hide Struct, Clean, Pages, Splice, LargeHeader;
    LargeFits(size);
    if Pages(size + HDR_SIZE) <= 0xFFFF { LargeKeeps(s, size, page); }
  }

  lemma ReleaseKeeps(s: State, p: nat)
    requires Struct(s) && (p == 0 || (p >= HDR_SIZE && p - HDR_SIZE in s.chunks))
    ensures |s.heap.heads| == |s.lists| == NBUCKETS
    ensures var u := Released(s, p);
            && Struct(u) && (Clean(s) ==> Clean(u))
            && (Clean(s) && (p == 0 || !s.chunks[p - HDR_SIZE].use.Free?) ==> u.stop == s.stop)
  {
    hide Struct, Clean, VerdictOf, Zoned, At, Splice, Enc, Push, ChunkFits;
    Shape(s);
    StopKeeps(s);
    if p != 0 {
      var a := p - HDR_SIZE;
      match s.chunks[a].use
      case Free(_) => FreeingFree(s, a);
      case Large(_) =>
        FreeingLarge(s, a);
        assert a + HDR_SIZE <= |s.heap.mem| by { ChunkEnds(s, a); }
        LargeGoneKeeps(s, a);
      case Live(b, size) =>
        FreeingLive(s, a);
        LiveGoes(s, a);
        if Clean(s) { CleanLive(s, a); }
        PushKeeps(s, b, a);
    }
  }

  lemma ChunkEnds(s: State, a: nat)
    requires Fits(s) && a in s.chunks
    ensures a + HDR_SIZE <= |s.heap.mem|
  {
    assert ChunkFits(s.heap.mem, a, s.chunks[a]);
  }

  lemma LiveGoes(s: State, a: nat)
    requires Struct(s) && a in s.chunks && s.chunks[a].use.Live?
    ensures CanPush(s, s.chunks[a].use.b, a) && s.chunks[a].extent == BucketSize(s.chunks[a].use.b)
    ensures a + HDR_SIZE <= |s.heap.mem|
  {
    hide Headers, Lists;
    assert ChunkFits(s.heap.mem, a, s.chunks[a]);
    Shape(s);
  }

  lemma CleanLive(s: State, a: nat)
    requires Struct(s) && Clean(s) && a in s.chunks && s.chunks[a].use.Live?
    ensures ChunkFits(s.heap.mem, a, s.chunks[a]) && Zoned(At(s.heap.mem, a, s.chunks[a].extent), s.chunks[a].use.size)
  {
    hide Headers, Lists, Disjoint, At, Zoned;
    assert ChunkFits(s.heap.mem, a, s.chunks[a]);
    assert CleanChunk(At(s.heap.mem, a, s.chunks[a].extent), s.chunks[a].use);
  }

  // ---- whole runs -----------------------------------------------------------------------

  lemma StepKeeps(s: State, a: Action)
    requires Struct(s)
    ensures Struct(Step(s, a))
  {
    hide Struct, Allocated, Released, Stored, Kernels, PageOk;
    if s.stop.Running? {
      match a
      case Alloc(size, page) => if PageOk(s, size, page) { AllocKeeps(s, size, page); }
      case Release(p) => if p == 0 || (p >= HDR_SIZE && p - HDR_SIZE in s.chunks) { ReleaseKeeps(s, p); }
      case Store(j, v) => if j < |s.heap.mem| && !Kernels(s, j) { StoreKeeps(s, j, v); }
    }
  }

  lemma {:induction false} RunKeeps(s: State, acts: seq<Action>)
    requires Struct(s)
    ensures Struct(Run(s, acts))
    decreases |acts|
  {
    hide Struct, Step;
    if acts != [] {
      StepKeeps(s, acts[0]);
      RunKeeps(Step(s, acts[0]), acts[1..]);
    }
  }

  lemma InitHolds(s: State)
    requires Init(s)
    ensures Struct(s) && Clean(s)
  {
    forall b | 0 <= b < NBUCKETS
      ensures ListOk(s, b)
    {
      assert s.lists[b] == [] && s.heap.heads[b] == 0;
    }
  }

  // ---- the promises ---------------------------------------------------------------------

  /** The bytes a client may use. */
  predicate IsPayload(chunks: map<nat, Chunk>, a: nat) {
    a in chunks && !chunks[a].use.Free?
  }

  /** Whoever stores what wherever outside headers and links, and however often anything
      is freed: live payloads never meet each other, nor any free chunk. */
  lemma PayloadsNeverMeet(s: State, acts: seq<Action>, a: nat, c: nat)
    requires Init(s)
    requires IsPayload(Run(s, acts).chunks, a) && c in Run(s, acts).chunks && a != c
    ensures var u := Run(s, acts);
            && a + HDR_SIZE + u.chunks[a].use.size <= |u.heap.mem|
            && (u.chunks[c].use.Free? ==> Apart(a + HDR_SIZE, u.chunks[a].use.size, c, u.chunks[c].extent))
            && (!u.chunks[c].use.Free? ==> Apart(a + HDR_SIZE, u.chunks[a].use.size, c + HDR_SIZE, u.chunks[c].use.size))
  {
    hide Lists, Headers, Run;
    InitHolds(s);
    RunKeeps(s, acts);
    var u := Run(s, acts);
    assert ChunkFits(u.heap.mem, a, u.chunks[a]);
    assert ChunkFits(u.heap.mem, c, u.chunks[c]);
  }

  /** An address answered is a payload of the size asked for that nobody had: its chunk
      was free or not there at all. */
  ghost predicate AnswersFresh(s: State, u: State, p: nat, size: nat) {
    && p >= HDR_SIZE && IsPayload(u.chunks, p - HDR_SIZE) && u.chunks[p - HDR_SIZE].use.size == size
    && !IsPayload(s.chunks, p - HDR_SIZE)
  }

  lemma BucketAnswers(s: State, size: nat, page: nat)
    requires Struct(s) && size > 0 && BucketFor(size + HDR_SIZE) < NBUCKETS && PageOk(s, size, page)
    requires |s.heap.heads| == |s.lists| == NBUCKETS && Kmalloc(s.heap, size, page).Ok?
    ensures var p := Kmalloc(s.heap, size, page).p;
            && (p == 0 <==> s.heap.heads[BucketFor(size + HDR_SIZE)] == 0 && page == 0)
            && (p != 0 ==> AnswersFresh(s, Allocated(s, size, page), p, size))
  {
    hide Struct, Clean, Refilled, Pages, Kmalloc, Pop, At, Poisoned, Splice, MakeLive, Link, Ready;
    BucketAlloc(s, size, page);
    var b := BucketFor(size + HDR_SIZE);
    var t := Ready(s, b, page);
    ReadyHead(s, b, page);
    if t.heap.heads[b] != 0 {
      PopExactly(t, b, size);
      HeadIsFree(t, b, size);
      var c := t.lists[b][0];
      if c in s.chunks {
        Shape(s);
        Inside(s, c);
        ChunkEnds(s, c);
        HasBytes(s, c);
        ReadyUntouched(s, b, page, c, c);
      }
    }
  }

  lemma HasBytes(s: State, a: nat)
    requires Fits(s) && a in s.chunks
    ensures s.chunks[a].extent > 0
  {
    assert ChunkFits(s.heap.mem, a, s.chunks[a]);
  }

  lemma ReadyHead(s: State, b: nat, page: nat)
    requires Struct(s) && b < NBUCKETS && |s.heap.heads| == |s.lists| == NBUCKETS
    requires page == 0 || page + PAGE_SIZE <= |s.heap.mem|
    ensures Ready(s, b, page).heap.heads[b] == 0 <==> s.heap.heads[b] == 0 && page == 0
  {
    hide Struct, Refilled;
    PageExactly(b);
    if s.heap.heads[b] == 0 && page != 0 { RefillNotEmpty(s, b, page); }
  }

  /** NULL is answered exactly for a request of nothing, for too many pages, or when
      neither a freelist nor the page allocator has anything. */
  lemma AllocAnswers(s: State, size: nat, page: nat)
    requires Struct(s) && PageOk(s, size, page)
    ensures |s.heap.heads| == |s.lists| == NBUCKETS
    ensures Kmalloc(s.heap, size, page).Ok? ==>
              var p := Kmalloc(s.heap, size, page).p;
              var b := BucketFor(size + HDR_SIZE);
              && (p == 0 <==> size == 0 || (page == 0 && (b < NBUCKETS ==> s.heap.heads[b] == 0))
                              || (b == NBUCKETS && Pages(size + HDR_SIZE) > 0xFFFF))
              && (p != 0 ==> AnswersFresh(s, Allocated(s, size, page), p, size))
  {
    hide Struct, Pages, Splice, LargeHeader, Ready, Refilled;
    Shape(s);
    var b := BucketFor(size + HDR_SIZE);
    if size > 0 && b < NBUCKETS && Kmalloc(s.heap, size, page).Ok? {
      BucketAnswers(s, size, page);
    } else if size > 0 && b == NBUCKETS && page != 0 {
      LargeFits(size);
      FreshIsNew(s, page, page + Pages(size + HDR_SIZE) * PAGE_SIZE);
    }
  }

  /** Stores only into live payloads, frees only of live payloads or NULL. */
  ghost predicate Behaves(s: State, a: Action) {
    match a
    case Alloc(_, _) => true
    case Release(p) => p == 0 || (p >= HDR_SIZE && IsPayload(s.chunks, p - HDR_SIZE))
    case Store(j, _) => InPayload(s, j)
  }

  ghost predicate Behaved(s: State, acts: seq<Action>)
    decreases |acts|
  {
    acts == [] || (Behaves(s, acts[0]) && Behaved(Step(s, acts[0]), acts[1..]))
  }

  lemma BehavedStep(s: State, a: Action)
    requires Struct(s) && Clean(s) && Behaves(s, a)
    ensures Struct(Step(s, a)) && Clean(Step(s, a)) && Step(s, a).stop == s.stop
  {
    hide Struct, Clean, Allocated, Released, Kernels, PageOk, InPayload;
    StepKeeps(s, a);
    if s.stop.Running? {
      match a
      case Alloc(size, page) => if PageOk(s, size, page) { AllocKeeps(s, size, page); }
      case Release(p) => ReleaseKeeps(s, p);
      case Store(j, v) =>
        PayloadIsNotKernels(s, j);
        PayloadStore(s, j, v);
    }
  }

  lemma {:induction false} BehavedRun(s: State, acts: seq<Action>)
    requires Struct(s) && Clean(s) && s.stop == Running && Behaved(s, acts)
    ensures Run(s, acts).stop == Running && Struct(Run(s, acts)) && Clean(Run(s, acts))
    decreases |acts|
  {
    hide Struct, Clean, Step, Behaves;
    if acts != [] {
      BehavedStep(s, acts[0]);
      BehavedRun(Step(s, acts[0]), acts[1..]);
    }
  }

  /** A client that keeps to its payloads is never stopped, and every pattern stays. */
  lemma NoFalseAlarm(s: State, acts: seq<Action>)
    requires Init(s) && Behaved(s, acts)
    ensures Run(s, acts).stop == Running && Clean(Run(s, acts))
  {
    InitHolds(s);
    BehavedRun(s, acts);
  }

  /** An intact heap takes back a live chunk exactly when its red zone is whole. */
  lemma OverrunIsCaught(s: State, a: nat)
    requires Struct(s) && s.stop == Running && a in s.chunks && s.chunks[a].use.Live?
    ensures ChunkFits(s.heap.mem, a, s.chunks[a])
    ensures Step(s, Release(a + HDR_SIZE)).stop == Stopped(RedZone)
            <==> exists j :: a + HDR_SIZE + s.chunks[a].use.size <= j < a + s.chunks[a].extent && s.heap.mem[j] != RZ_PATTERN
    ensures Step(s, Release(a + HDR_SIZE)).stop in {Running, Stopped(RedZone)}
  {
    hide Struct, VerdictOf, Zoned, At, Push, Splice, Enc, ChunkFits;
    Shape(s);
    FreeingLive(s, a);
    ChunkEnds(s, a);
    Inside(s, a);
    ZonedIn(s.heap.mem, a, s.chunks[a].extent, s.chunks[a].use.size);
  }

  lemma Inside(s: State, a: nat)
    requires Fits(s) && a in s.chunks
    ensures a + s.chunks[a].extent <= |s.heap.mem|
  {
    assert ChunkFits(s.heap.mem, a, s.chunks[a]);
  }

  /** A second kfree of a chunk on a freelist always stops at the magic. */
  lemma DoubleFreeIsCaught(s: State, a: nat)
    requires Struct(s) && s.stop == Running && a in s.chunks && s.chunks[a].use.Free?
    ensures Step(s, Release(a + HDR_SIZE)).stop == Stopped(BadMagic)
  {
    hide Struct, VerdictOf, Zoned, At, Push, Splice, Enc, ChunkFits;
    Shape(s);
    FreeingFree(s, a);
    ChunkEnds(s, a);
  }

  /** Over every run, a run of pages is the shortest that holds its payload, and its header
      tells kfree where it starts and how many pages it took, so exactly those go back. */
  lemma LargeRunsReturn(s: State, acts: seq<Action>, a: nat)
    requires Init(s)
    ensures var u := Run(s, acts);
            a in u.chunks && u.chunks[a].use.Large? ==>
              && a + HDR_SIZE <= |u.heap.mem| && a % PAGE_SIZE == 0
              && VerdictOf(u.heap.mem, a) == LargeRun
              && RunPages(At(u.heap.mem, a, HDR_SIZE)) * PAGE_SIZE == u.chunks[a].extent
              && HDR_SIZE + u.chunks[a].use.size <= u.chunks[a].extent < HDR_SIZE + u.chunks[a].use.size + PAGE_SIZE
  {
    hide Run, VerdictOf, At, RunPages, Bucket, Magic, Lists, Disjoint, Init;
    InitHolds(s);
    RunKeeps(s, acts);
    var u := Run(s, acts);
    if a in u.chunks && u.chunks[a].use.Large? {
      FreeingLarge(u, a);
      PagesAlone(u.heap.mem, a, u.chunks[a].extent);
      assert HeaderOk(At(u.heap.mem, a, u.chunks[a].extent), u.chunks[a].use);
    }
  }

  lemma PagesAlone(mem: seq<byte>, a: nat, n: nat)
    requires HDR_SIZE <= n && a + n <= |mem|
    ensures RunPages(At(mem, a, HDR_SIZE)) == RunPages(At(mem, a, n))
  {
    hide Dec;
    assert At(mem, a, HDR_SIZE) == At(mem, a, n)[..HDR_SIZE];
    assert At(mem, a, HDR_SIZE)[2..4] == At(mem, a, n)[2..4];
  }

  /** Freeing a run of pages clears its magic and stores nothing else, so a second kfree
      before the pages are used again fails the magic check. */
  lemma LargeFreedOnce(s: State, a: nat)
    requires Struct(s) && s.stop == Running && a in s.chunks && s.chunks[a].use.Large?
    ensures var u := Step(s, Release(a + HDR_SIZE));
            && u.stop == Running && a !in u.chunks
            && |u.heap.mem| == |s.heap.mem| && a + HDR_SIZE <= |u.heap.mem|
            && VerdictOf(u.heap.mem, a) == Bad(BadMagic)
            && forall j :: 0 <= j < |s.heap.mem| && !(a + 4 <= j < a + 8) ==> u.heap.mem[j] == s.heap.mem[j]
  {
    hide Struct, At, Zoned, Push, Enc, ChunkFits, Bucket, Size, VerdictOf, Pow256;
    Shape(s);
    FreeingLarge(s, a);
    ChunkEnds(s, a);
    ClearedMagic(s.heap.mem, a);
  }

  lemma ClearedMagic(mem: seq<byte>, a: nat)
    requires a + HDR_SIZE <= |mem|
    ensures VerdictOf(Splice(mem, a + 4, Enc(0, 4)), a) == Bad(BadMagic)
  {
    hide Enc, Dec, Pow256, Zoned, Size, Bucket;
    var m := Splice(mem, a + 4, Enc(0, 4));
    Widths();
    DecEnc(0, 4);
    assert At(m, a, HDR_SIZE)[4..8] == Enc(0, 4);
  }

  // ---- damage waits to be found -----------------------------------------------------------

  /** A byte of a free chunk's poison, or of a live chunk's red zone, that is wrong. */
  ghost predicate Damaged(s: State, a: nat, j: nat) {
    && a in s.chunks && a <= j < a + s.chunks[a].extent && a + s.chunks[a].extent <= |s.heap.mem|
    && match s.chunks[a].use
       case Free(_) => a + LINK_SIZE <= j && s.heap.mem[j] != POISON_PATTERN
       case Live(_, size) => a + HDR_SIZE + size <= j && s.heap.mem[j] != RZ_PATTERN
       case Large(_) => false
  }

  /** Whatever an action does to other chunks, `a` and its byte `j` stay as they are. */
  ghost predicate Untouched(s: State, u: State, a: nat, j: nat) {
    && a in s.chunks && a in u.chunks && u.chunks[a] == s.chunks[a]
    && j < |s.heap.mem| == |u.heap.mem| && u.heap.mem[j] == s.heap.mem[j]
  }

  lemma OnlyAtUntouched(s: State, u: State, c: nat, a: nat, j: nat)
    requires Fits(s) && OnlyAt(s, u, c) && a in s.chunks && a != c && a <= j < a + s.chunks[a].extent
    ensures Untouched(s, u, a, j)
  {
    assert ChunkFits(s.heap.mem, a, s.chunks[a]);
    var w := At(s.heap.mem, a, s.chunks[a].extent);
    var x := At(u.heap.mem, a, s.chunks[a].extent);
    assert w[j - a] == s.heap.mem[j] && x[j - a] == u.heap.mem[j];
  }

  lemma PushUntouched(s: State, b: nat, c: nat, a: nat, j: nat)
    requires Struct(s) && CanPush(s, b, c) && a in s.chunks && a != c && a <= j < a + s.chunks[a].extent
    ensures Untouched(s, Pushed(s, b, c), a, j)
  {
    hide Push, Lists, Headers, Disjoint;
    var u := Pushed(s, b, c);
    forall d | d in s.chunks && d != c
      ensures ChunkFits(s.heap.mem, d, s.chunks[d])
      ensures At(u.heap.mem, d, s.chunks[d].extent) == At(s.heap.mem, d, s.chunks[d].extent)
    {
      PushedOthers(s, b, c, d);
    }
    OnlyAtUntouched(s, u, c, a, j);
  }

  lemma {:induction false} RefillUntouched(s: State, b: nat, page: nat, n: nat, hi: nat, a: nat, j: nat)
    requires Struct(s) && |s.heap.heads| == |s.lists| == NBUCKETS
    requires b < NBUCKETS && 0 < page && page + Offset(b, n) <= hi <= |s.heap.mem|
    requires Fresh(s.chunks, page, hi) && a in s.chunks && a <= j < a + s.chunks[a].extent <= |s.heap.mem|
    ensures Untouched(s, Refilled(s, b, page, n), a, j)
    decreases n
  {
    hide Struct, Fresh, Refilled, CanPush, BucketSize, Pushed, Offset;
    if n == 0 {
      assert Refilled(s, b, page, 0) == s by { RefilledNone(s, b, page); }
    } else {
      NextOffset(b, n);
      RefillUntouched(s, b, page, n - 1, hi, a, j);
      RefillKeeps(s, b, page, n - 1, hi);
      RefilledLast(s, b, page, n);
      var u := Refilled(s, b, page, n - 1);
      var c := page + Offset(b, n - 1);
      FreshRest(u, b, c, hi);
      FreshElsewhere(s, page, hi, c, a);
      PushUntouched(u, b, c, a, j);
    }
  }

  lemma RefilledNone(s: State, b: nat, page: nat)
    requires b < NBUCKETS && |s.heap.heads| == |s.lists| == NBUCKETS && page <= |s.heap.mem|
    ensures Offset(b, 0) == 0 && Refilled(s, b, page, 0) == s
  {
  }

  lemma RefilledLast(s: State, b: nat, page: nat, n: nat)
    requires b < NBUCKETS && |s.heap.heads| == |s.lists| == NBUCKETS && n > 0
    requires page + Offset(b, n) <= |s.heap.mem|
    ensures Offset(b, n) == Offset(b, n - 1) + BucketSize(b)
    ensures Refilled(s, b, page, n) == Pushed(Refilled(s, b, page, n - 1), b, page + Offset(b, n - 1))
  {
    hide Pushed, Refill;
    NextOffset(b, n);
  }

  lemma FreshElsewhere(s: State, lo: nat, hi: nat, c: nat, a: nat)
    requires Struct(s) && Fresh(s.chunks, lo, hi) && lo <= c < hi && a in s.chunks
    ensures a != c
  {
    assert ChunkFits(s.heap.mem, a, s.chunks[a]);
  }

  lemma ReadyUntouched(s: State, b: nat, page: nat, a: nat, j: nat)
    requires Struct(s) && b < NBUCKETS && (page == 0 || Fresh(s.chunks, page, page + PAGE_SIZE))
    requires a in s.chunks && a <= j < a + s.chunks[a].extent <= |s.heap.mem|
    ensures |s.heap.heads| == |s.lists| == NBUCKETS && Untouched(s, Ready(s, b, page), a, j)
  {
    hide Struct, Fresh, Refilled;
    PageExactly(b);
    Shape(s);
    if s.heap.heads[b] == 0 && page != 0 && page + PAGE_SIZE <= |s.heap.mem| {
      RefillUntouched(s, b, page, PerPage(b), page + PAGE_SIZE, a, j);
    }
  }

  /** The chunk is somebody's, or damaged. */
  ghost predicate Pinned(s: State, a: nat, j: nat) {
    && a in s.chunks && a <= j < a + s.chunks[a].extent <= |s.heap.mem|
    && (s.chunks[a].use.Free? ==> Damaged(s, a, j))
  }

  /** An allocation does not hand out a damaged chunk, nor touch one that is held. */
  lemma PopUntouched(s: State, b: nat, size: nat, a: nat, j: nat)
    requires Struct(s) && CanPop(s, b, size) && Pinned(s, a, j)
    ensures Pop(s.heap, b, size).Ok? ==> Untouched(s, Popped(s, b, size), a, j)
  {
    hide At, Splice, MakeLive, Link, Headers, Lists, Disjoint, Fits;
    var c := s.lists[b][0];
    PopExactly(s, b, size);
    HeadIsFree(s, b, size);
    if a == c {
      PoisonedIn(s.heap.mem, c, BucketSize(b));
    } else {
      PoppedOnlyAt(s, b, size);
      OnlyAtUntouched(s, Popped(s, b, size), c, a, j);
    }
  }

  lemma BucketAllocUntouched(s: State, size: nat, page: nat, a: nat, j: nat)
    requires Struct(s) && size > 0 && BucketFor(size + HDR_SIZE) < NBUCKETS && PageOk(s, size, page)
    requires |s.heap.heads| == |s.lists| == NBUCKETS && Pinned(s, a, j)
    ensures Untouched(s, Allocated(s, size, page), a, j)
  {
    hide Struct, Clean, Popped, Refilled, Pages, Ready, Kmalloc, Pop, At, Poisoned, Fresh, Pinned;
    BucketAlloc(s, size, page);
    var b := BucketFor(size + HDR_SIZE);
    var t := Ready(s, b, page);
    PinnedThere(s, a, j);
    ReadyUntouched(s, b, page, a, j);
    if t.heap.heads[b] != 0 {
      StillPinned(s, t, a, j);
      PopUntouched(t, b, size, a, j);
      PopExactly(t, b, size);
    }
  }

  lemma PinnedThere(s: State, a: nat, j: nat)
    requires Pinned(s, a, j)
    ensures a in s.chunks && a <= j < a + s.chunks[a].extent <= |s.heap.mem|
  {
  }

  lemma AllocUntouched(s: State, size: nat, page: nat, a: nat, j: nat)
    requires Struct(s) && PageOk(s, size, page) && Pinned(s, a, j)
    ensures |s.heap.heads| == |s.lists| == NBUCKETS && Untouched(s, Allocated(s, size, page), a, j)
  {
    hide Struct, Pages, Fresh, Damaged, Booked, Splice, LargeHeader;
    Shape(s);
    if size > 0 && BucketFor(size + HDR_SIZE) < NBUCKETS {
      BucketAllocUntouched(s, size, page, a, j);
    } else if size > 0 && page != 0 {
      LargeUntouched(s, size, page, a, j);
    }
  }

  lemma StillPinned(s: State, t: State, a: nat, j: nat)
    requires Pinned(s, a, j) && Untouched(s, t, a, j)
    ensures Pinned(t, a, j)
  {
  }

  lemma LargeUntouched(s: State, size: nat, page: nat, a: nat, j: nat)
    requires Struct(s) && page != 0 && page + Pages(size + HDR_SIZE) * PAGE_SIZE <= |s.heap.mem|
    requires Fresh(s.chunks, page, page + Pages(size + HDR_SIZE) * PAGE_SIZE)
    requires a in s.chunks && a <= j < a + s.chunks[a].extent
    ensures Untouched(s, LargeTaken(s, size, page), a, j)
  {
    hide Splice, At, Headers, Lists, Disjoint, LargeHeader, Pages;
    LargeFits(size);
    FreshIsNew(s, page, page + Pages(size + HDR_SIZE) * PAGE_SIZE);
    SplicedOnlyAt(s, LargeTaken(s, size, page), page, page, LargeHeader(Pages(size + HDR_SIZE)));
    OnlyAtUntouched(s, LargeTaken(s, size, page), page, a, j);
  }

  /** A free of another chunk leaves this one; a free of a damaged one does nothing. */
  lemma ReleaseUntouched(s: State, p: nat, a: nat, j: nat)
    requires Struct(s) && (p == 0 || (p >= HDR_SIZE && p - HDR_SIZE in s.chunks)) && Pinned(s, a, j)
    requires p != a + HDR_SIZE || Damaged(s, a, j)
    ensures |s.heap.heads| == |s.lists| == NBUCKETS && Untouched(s, Released(s, p), a, j)
  {
    hide Struct, VerdictOf, Zoned, At, Splice, Enc, Push, ChunkFits;
    Shape(s);
    if p != 0 {
      var c := p - HDR_SIZE;
      ChunkEnds(s, c);
      match s.chunks[c].use
      case Free(_) => FreeingFree(s, c);
      case Large(_) =>
        FreeingLarge(s, c);
        LargeGoneUntouched(s, c, a, j);
      case Live(b, size) =>
        FreeingLive(s, c);
        LiveGoes(s, c);
        ZonedIn(s.heap.mem, c, s.chunks[c].extent, size);
        if a != c { PushUntouched(s, b, c, a, j); }
    }
  }

  lemma LargeGoneUntouched(s: State, c: nat, a: nat, j: nat)
    requires Struct(s) && c in s.chunks && a in s.chunks && a != c && c + HDR_SIZE <= |s.heap.mem|
    requires a <= j < a + s.chunks[a].extent
    ensures Untouched(s, LargeGone(s, c), a, j)
  {
    hide Splice, At, Headers, Lists, Enc;
    assert ChunkFits(s.heap.mem, c, s.chunks[c]);
    SplicedOnlyAt(s, LargeGone(s, c), c, c + 4, Enc(0, 4));
    OnlyAtUntouched(s, LargeGone(s, c), c, a, j);
  }

  /** The action stores at `j` or frees `a`'s payload. */
  predicate Meddles(x: Action, a: nat, j: nat, free: bool) {
    (x.Store? && x.a == j) || (free && x == Release(a + HDR_SIZE))
  }

  lemma StepUntouched(s: State, x: Action, a: nat, j: nat)
    requires Struct(s) && Pinned(s, a, j) && !Meddles(x, a, j, !Damaged(s, a, j))
    ensures Untouched(s, Step(s, x), a, j)
  {
    hide Struct, Allocated, Released, PageOk, Damaged;
    if s.stop.Running? {
      match x
      case Alloc(size, page) => if PageOk(s, size, page) { AllocUntouched(s, size, page, a, j); }
      case Release(p) => if p == 0 || (p >= HDR_SIZE && p - HDR_SIZE in s.chunks) { ReleaseUntouched(s, p, a, j); }
      case Store(k, v) =>
    }
  }

  /** A held byte keeps its value through every run that neither stores to it nor frees
      its chunk, whatever is allocated, freed or stored elsewhere. */
  lemma {:induction false} HeldBytesStay(s: State, acts: seq<Action>, a: nat, j: nat)
    requires Struct(s) && IsPayload(s.chunks, a) && a <= j < a + s.chunks[a].extent <= |s.heap.mem|
    requires forall x :: x in acts ==> !Meddles(x, a, j, true)
    ensures Untouched(s, Run(s, acts), a, j)
    decreases |acts|
  {
    hide Struct, Step, Damaged, Meddles;
    if acts != [] {
      var u := Step(s, acts[0]);
      assert acts[0] in acts;
      assert !Meddles(acts[0], a, j, !Damaged(s, a, j)) by { MeddlesLess(acts[0], a, j, !Damaged(s, a, j)); }
      StepKeeps(s, acts[0]);
      StepUntouched(s, acts[0], a, j);
      HeldBytesStay(u, acts[1..], a, j);
    }
  }

  lemma MeddlesLess(x: Action, a: nat, j: nat, free: bool)
    requires !Meddles(x, a, j, true)
    ensures !Meddles(x, a, j, free)
  {
  }

  /** Damage is never recycled: a chunk with a broken pattern byte stays where it is, out
      of anybody's hands, through every run that does not repair the byte; the calls
      that would move it stop the machine instead. */
  lemma {:induction false} DamageStays(s: State, acts: seq<Action>, a: nat, j: nat)
    requires Struct(s) && Damaged(s, a, j)
    requires forall x :: x in acts ==> !(x.Store? && x.a == j)
    ensures Untouched(s, Run(s, acts), a, j) && Damaged(Run(s, acts), a, j)
    decreases |acts|
  {
    hide Struct, Step;
    if acts != [] {
      var u := Step(s, acts[0]);
      assert acts[0] in acts;
      StepKeeps(s, acts[0]);
      StepUntouched(s, acts[0], a, j);
      DamageStays(u, acts[1..], a, j);
    }
  }

  /** A freelist just refilled has clean poison at its head. */
  lemma RefilledHead(s: State, b: nat, page: nat)
    requires Struct(s) && |s.heap.heads| == |s.lists| == NBUCKETS && b < NBUCKETS
    requires 0 < page && page + PAGE_SIZE <= |s.heap.mem| && Fresh(s.chunks, page, page + PAGE_SIZE)
    ensures Offset(b, PerPage(b)) == PAGE_SIZE
    ensures var u := Refilled(s, b, page, PerPage(b));
            var c := u.heap.heads[b];
            c + BucketSize(b) <= |u.heap.mem| && Poisoned(At(u.heap.mem, c, BucketSize(b)))
  {
    hide Struct, Fresh, Refilled, CanPush, Offset, Poisoned, At;
    PageExactly(b);
    var n := PerPage(b);
    assert n > 0;
    NextOffset(b, n);
    RefilledLast(s, b, page, n);
    RefillKeeps(s, b, page, n - 1, page + PAGE_SIZE);
    var u := Refilled(s, b, page, n - 1);
    var c := page + Offset(b, n - 1);
    FreshRest(u, b, c, page + PAGE_SIZE);
    PushedChunk(u, b, c);
    assert Pushed(u, b, c).heap.heads[b] == c;
  }

  /** An allocation stops on broken poison exactly when the freelist it takes from has a
      chunk, and a byte past the link of the first one changed; a freelist that has to be
      refilled never stops it. */
  lemma UseAfterFreeIsCaught(s: State, size: nat, page: nat)
    requires Struct(s) && s.stop == Running && size > 0 && BucketFor(size + HDR_SIZE) < NBUCKETS
    requires PageOk(s, size, page)
    ensures |s.heap.heads| == NBUCKETS
    ensures var b := BucketFor(size + HDR_SIZE);
            var c := s.heap.heads[b];
            && (c != 0 ==> c + BucketSize(b) <= |s.heap.mem|)
            && (Step(s, Alloc(size, page)).stop == Stopped(UseAfterFree)
                <==> c != 0 && exists j :: c + LINK_SIZE <= j < c + BucketSize(b) && s.heap.mem[j] != POISON_PATTERN)
  {
    hide Struct, Popped, Refilled, Pages, At, Poisoned, Fresh, Pop;
    Shape(s);
    var b := BucketFor(size + HDR_SIZE);
    BucketAlloc(s, size, page);
    SmallEnough(size);
    var t := Ready(s, b, page);
    if t.heap.heads[b] != 0 {
      PopExactly(t, b, size);
      PoppedStop(t, b, size);
      if s.heap.heads[b] != 0 { PoisonedIn(s.heap.mem, s.heap.heads[b], BucketSize(b)); }
      else { RefilledHead(s, b, page); }
    }
  }

  lemma SmallEnough(size: nat)
    requires BucketFor(size + HDR_SIZE) < NBUCKETS
    ensures size + HDR_SIZE < GIB4 * GIB4
  {
  }
}
