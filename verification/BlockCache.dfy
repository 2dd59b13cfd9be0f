/** The write-through block cache (fs/bio.c) as a step system.

    Any number of readers run at once with at most one writer.  What the kernel does
    under `bio_lock` is one step; each sector a device transfer moves, with the lock
    dropped, is a step of its own.  An action that does not fit the current state
    changes nothing. */
module BlockCache {
  import opened Options

  const TWO_32: nat := 0x1_0000_0000
  const TWO_64: nat := 0x1_0000_0000_0000_0000
  const SPP: nat := 8                  // sectors per cached page
  const NO_PAGE: nat := TWO_64 - 1     // an identity no disk has

  type Sector = seq<bv8>

  datatype Addr = Addr(drive: nat, lba: nat)

  type Disk = Addr -> Sector

  datatype Buf = Buf(
    drive: nat, page: nat, stamp: nat,
    data: seq<Sector>,       // SPP sectors
    got: nat,                // how many of them the last fetch has filled
    valid: bool, busy: bool, stale: bool)

  /** A bio_write in progress: `done` sectors have reached the disk. */
  datatype Write = Write(drive: nat, lba: nat, data: seq<Sector>, done: nat)

  datatype Phase = Top | Fetching(buf: nat) | Failed

  /** A bio_read in progress (or over, once `out` has `nsec` sectors). */
  datatype Reader = Reader(drive: nat, lba: nat, nsec: nat, out: seq<Sector>, phase: Phase, start: nat)

  datatype State = State(
    base: Disk,              // the disk with every completed write applied
    write: Option<Write>,
    bufs: seq<Buf>,
    clock: nat,
    readers: map<nat, Reader>,
    log: seq<Moment>)        // history: the state before each step, as readers see it

  /** What the cache stands for at one moment, with the completed writes and the
      one in progress. */
  datatype Moment = Moment(view: Disk, base: Disk, write: Option<Write>)

  datatype Action =
    | StartRead(t: nat, drive: nat, lba: nat, nsec: nat)
    | Lookup(t: nat)                   // one pass of bio_read's loop up to a hit, a wait or a claim
    | FetchSector(t: nat)              // the device hands over one more sector
    | FetchEnd(t: nat, ok: bool)       // the transfer is over; the lock is retaken
    | StartWrite(drive: nat, lba: nat, data: seq<Sector>)
    | WriteSector                      // one more sector reaches the disk
    | WriteFails                       // the device refuses, nothing written
    | WriteEnd                         // the cache is made to agree; bio_write returns

  // ---- addresses -----------------------------------------------------------------

  /** Sector `k` of a request at `lba`, in 64-bit arithmetic. */
  function Nth(drive: nat, lba: nat, k: nat): Addr {
    Addr(drive, (lba + k) % TWO_64)
  }

  function Off(w: Write, a: Addr): nat {
    (a.lba - w.lba) % TWO_64
  }

  /** `a` is one of the write's sectors lo..hi. */
  predicate CoversIn(w: Write, a: Addr, lo: nat, hi: nat) {
    a.drive == w.drive && a.lba < TWO_64 && lo <= Off(w, a) < hi
  }

  predicate Covers(w: Write, a: Addr) {
    CoversIn(w, a, 0, |w.data|)
  }

  /** The disk right now. */
  function OnDisk(s: State, a: Addr): Sector {
    if s.write.Some? && CoversIn(s.write.value, a, 0, s.write.value.done) && Off(s.write.value, a) < |s.write.value.data|
    then s.write.value.data[Off(s.write.value, a)]
    else s.base(a)
  }

  function PageSector(b: Buf, k: nat): Addr {
    Addr(b.drive, b.page * SPP + k)
  }

  // ---- lookups, over the buffer array ------------------------------------------------

  predicate Named(b: Buf, drive: nat, page: nat) {
    b.drive == drive && b.page == page
  }

  datatype Found = Hit(i: nat) | InFlight | Miss

  /** page_get's scan: the first buffer with the name that is busy or valid. */
  function Find(bufs: seq<Buf>, drive: nat, page: nat, from: nat): (r: Found)
    requires from <= |bufs|
    ensures r.Hit? ==> from <= r.i < |bufs| && Named(bufs[r.i], drive, page) && bufs[r.i].valid && !bufs[r.i].busy
    ensures r.Miss? ==> forall j :: from <= j < |bufs| && Named(bufs[j], drive, page) ==> !bufs[j].valid && !bufs[j].busy
    decreases |bufs| - from
  {
    if from == |bufs| then Miss
    else if Named(bufs[from], drive, page) && bufs[from].busy then InFlight
    else if Named(bufs[from], drive, page) && bufs[from].valid then Hit(from)
    else Find(bufs, drive, page, from + 1)
  }

  /** The victim scan from `from` on, with the best so far: a free buffer at once,
      else the least recently stamped of those not in flight. */
  function Victim(bufs: seq<Buf>, from: nat, best: Option<nat>): (r: Option<nat>)
    requires from <= |bufs|
    requires best.Some? ==> best.value < |bufs| && !bufs[best.value].busy
    ensures r.Some? ==> r.value < |bufs| && !bufs[r.value].busy
    decreases |bufs| - from
  {
    if from == |bufs| then best
    else if bufs[from].busy then Victim(bufs, from + 1, best)
    else if !bufs[from].valid then Some(from)
    else if best.None? || bufs[from].stamp < bufs[best.value].stamp then Victim(bufs, from + 1, Some(from))
    else Victim(bufs, from + 1, best)
  }

  function Min(a: nat, b: nat): nat {
    if a <= b then a else b
  }

  /** The sectors of one run, laid over a page. */
  function Overlay(data: seq<Sector>, within: nat, src: seq<Sector>): seq<Sector>
    requires within + |src| <= |data|
  {
    data[..within] + src + data[within + |src|..]
  }

  /** bio_write's inner scan: the first buffer with the name that is in flight is
      marked stale, or the first that is valid is patched. */
  function PatchRun(bufs: seq<Buf>, drive: nat, page: nat, within: nat, src: seq<Sector>, from: nat): (r: seq<Buf>)
    requires from <= |bufs| && within + |src| <= SPP
    requires forall j :: 0 <= j < |bufs| ==> |bufs[j].data| == SPP
    ensures |r| == |bufs|
    decreases |bufs| - from
  {
    if from == |bufs| then bufs
    else if !Named(bufs[from], drive, page) then PatchRun(bufs, drive, page, within, src, from + 1)
    else if bufs[from].busy then bufs[from := bufs[from].(stale := true)]
    else if !bufs[from].valid then PatchRun(bufs, drive, page, within, src, from + 1)
    else bufs[from := bufs[from].(data := Overlay(bufs[from].data, within, src))]
  }

  ghost predicate Sized(bufs: seq<Buf>) {
    forall j :: 0 <= j < |bufs| ==> |bufs[j].data| == SPP
  }

  /** Where sector `k` of a request at `lba` lies, and how far the page serves it. */
  function PageOf(lba: nat, k: nat): nat {
    (lba + k) % TWO_64 / SPP
  }

  function WithinOf(lba: nat, k: nat): nat {
    (lba + k) % TWO_64 % SPP
  }

  function RunOf(lba: nat, k: nat, n: nat): (run: nat)
    requires k < n
    ensures 1 <= run <= n - k && WithinOf(lba, k) + run <= SPP
  {
    Min(SPP - WithinOf(lba, k), n - k)
  }

  lemma PatchRunSized(bufs: seq<Buf>, drive: nat, page: nat, within: nat, src: seq<Sector>, from: nat)
    requires Sized(bufs) && from <= |bufs| && within + |src| <= SPP
    ensures Sized(PatchRun(bufs, drive, page, within, src, from))
    decreases |bufs| - from
  {
  }

  /** The whole of bio_write's second half, from sector `done` on. */
  function PatchAll(bufs: seq<Buf>, w: Write, done: nat): (r: seq<Buf>)
    requires Sized(bufs)
    ensures |r| == |bufs|
    decreases |w.data| - done
  {
    if done >= |w.data| then bufs
    else
      var run := RunOf(w.lba, done, |w.data|);
      var src := w.data[done..done + run];
      PatchRunSized(bufs, w.drive, PageOf(w.lba, done), WithinOf(w.lba, done), src, 0);
      PatchAll(PatchRun(bufs, w.drive, PageOf(w.lba, done), WithinOf(w.lba, done), src, 0), w, done + run)
  }

  // ---- what a patch does, buffer by buffer ----------------------------------------------

  predicate Live(b: Buf) {
    b.valid || b.busy
  }

  /** At most one buffer is valid or in flight for any page. */
  ghost predicate Unique(bufs: seq<Buf>) {
    forall i, j :: 0 <= i < j < |bufs| && Live(bufs[i]) && Live(bufs[j]) ==>
      !Named(bufs[i], bufs[j].drive, bufs[j].page)
  }

  predicate Touched(b: Buf, w: Write, lo: nat, hi: nat) {
    Live(b) && exists k :: 0 <= k < SPP && CoversIn(w, PageSector(b, k), lo, hi)
  }

  /** What sectors lo..hi of a write do to one buffer. */
  function Patched(b: Buf, w: Write, lo: nat, hi: nat): Buf
    requires |b.data| == SPP && hi <= |w.data|
  {
    if !Touched(b, w, lo, hi) then b
    else if b.busy then b.(stale := true)
    else b.(data := seq(SPP, k requires 0 <= k < SPP =>
              if CoversIn(w, PageSector(b, k), lo, hi) then w.data[Off(w, PageSector(b, k))] else b.data[k]))
  }

  function RunEffect(b: Buf, drive: nat, page: nat, within: nat, src: seq<Sector>): Buf
    requires |b.data| == SPP && within + |src| <= SPP
  {
    if !Live(b) || !Named(b, drive, page) then b
    else if b.busy then b.(stale := true)
    else b.(data := Overlay(b.data, within, src))
  }

  lemma {:induction false} PatchRunEffect(bufs: seq<Buf>, drive: nat, page: nat, within: nat, src: seq<Sector>, from: nat, j: nat)
    requires Sized(bufs) && Unique(bufs) && from <= |bufs| && within + |src| <= SPP && j < |bufs|
    ensures PatchRun(bufs, drive, page, within, src, from)[j]
         == if j < from then bufs[j] else RunEffect(bufs[j], drive, page, within, src)
    decreases |bufs| - from
  {
    if from < |bufs| {
      var stop := Named(bufs[from], drive, page) && Live(bufs[from]);
      if !stop {
        PatchRunEffect(bufs, drive, page, within, src, from + 1, j);
      }
    }
  }

  lemma SameMod(a: int, m: int, q: int)
    requires 0 <= a < TWO_64 && m == a + TWO_64 * q
    ensures m % TWO_64 == a
  {
  }

  /** A page never straddles the 64-bit wrap, so within one run the offset of a
      sector in the write is its place in the page, shifted. */
  lemma OffsetsInRun(lba: nat, done: nat, run: nat, y: nat)
    requires y < TWO_64 && WithinOf(lba, done) + run <= SPP && done + run <= TWO_32
    ensures done <= (y - lba) % TWO_64 < done + run <==>
            y / SPP == PageOf(lba, done) && WithinOf(lba, done) <= y % SPP < WithinOf(lba, done) + run
    ensures done <= (y - lba) % TWO_64 < done + run ==>
            (y - lba) % TWO_64 - done == y % SPP - WithinOf(lba, done)
  {
    var x := (lba + done) % TWO_64;
    var q := (lba + done) / TWO_64;
    var off := (y - lba) % TWO_64;
    var r := (y - lba) / TWO_64;
    assert y == lba + off + TWO_64 * r;
    assert x == 8 * PageOf(lba, done) + WithinOf(lba, done);
    if done <= off < done + run {
      var d := off - done;
      assert y == x + d + TWO_64 * (q + r);
      assert 0 <= x + d < TWO_64;
      SameMod(x + d, y, q + r);
      assert y == x + d;
    }
    if y / SPP == PageOf(lba, done) && WithinOf(lba, done) <= y % SPP < WithinOf(lba, done) + run {
      var d := y % SPP - WithinOf(lba, done);
      assert y == x + d;
      assert y - lba == done + d - TWO_64 * q;
      SameMod(done + d, y - lba, -q);
    }
  }

  /** One run is the sectors done..done+run of the write, seen from any buffer. */
  lemma RunIsPatch(b: Buf, w: Write, done: nat)
    requires |b.data| == SPP && done < |w.data| <= TWO_32
    ensures var run := RunOf(w.lba, done, |w.data|);
            Patched(b, w, done, done + run) ==
            RunEffect(b, w.drive, PageOf(w.lba, done), WithinOf(w.lba, done), w.data[done..done + run])
  {
    hide Off, PageOf, WithinOf, CoversIn, PageSector, RunOf;
    var run := RunOf(w.lba, done, |w.data|);
    var p, within := PageOf(w.lba, done), WithinOf(w.lba, done);
    forall k | 0 <= k < SPP
      ensures CoversIn(w, PageSector(b, k), done, done + run) <==>
              Named(b, w.drive, p) && within <= k < within + run
      ensures CoversIn(w, PageSector(b, k), done, done + run) ==>
              Off(w, PageSector(b, k)) == done + (k - within)
    {
      RunCovers(b, w, done, run, k);
    }
    if Live(b) && Named(b, w.drive, p) {
      assert CoversIn(w, PageSector(b, within), done, done + run);
      if !b.busy {
        assert Overlay(b.data, within, w.data[done..done + run]) == Patched(b, w, done, done + run).data;
      }
    }
  }

  lemma RunCovers(b: Buf, w: Write, done: nat, run: nat, k: nat)
    requires k < SPP && WithinOf(w.lba, done) + run <= SPP && done + run <= TWO_32
    ensures CoversIn(w, PageSector(b, k), done, done + run) <==>
            Named(b, w.drive, PageOf(w.lba, done)) && WithinOf(w.lba, done) <= k < WithinOf(w.lba, done) + run
    ensures CoversIn(w, PageSector(b, k), done, done + run) ==>
            Off(w, PageSector(b, k)) == done + (k - WithinOf(w.lba, done))
  {
    var y := b.page * SPP + k;
    assert y / SPP == b.page && y % SPP == k;
    assert PageOf(w.lba, done) < TWO_64 / SPP;
    if y < TWO_64 {
      OffsetsInRun(w.lba, done, run, y);
    }
  }

  lemma PatchedCompose(b: Buf, w: Write, lo: nat, mid: nat, hi: nat)
    requires |b.data| == SPP && lo <= mid <= hi <= |w.data|
    ensures Patched(Patched(b, w, lo, mid), w, mid, hi) == Patched(b, w, lo, hi)
  {
    var c := Patched(b, w, lo, mid);
    assert forall k :: 0 <= k < SPP ==> PageSector(c, k) == PageSector(b, k);
    assert forall k :: 0 <= k < SPP ==>
      (CoversIn(w, PageSector(b, k), lo, hi) <==>
       CoversIn(w, PageSector(b, k), lo, mid) || CoversIn(w, PageSector(b, k), mid, hi));
    if Live(b) {
      TouchedCompose(b, c, w, lo, mid, hi);
      if !b.busy {
        assert Patched(c, w, mid, hi).data == Patched(b, w, lo, hi).data;
      }
    }
  }

  lemma TouchedCompose(b: Buf, c: Buf, w: Write, lo: nat, mid: nat, hi: nat)
    requires lo <= mid <= hi && Live(b) && Live(c) && c.drive == b.drive && c.page == b.page
    ensures Touched(b, w, lo, hi) <==> Touched(b, w, lo, mid) || Touched(c, w, mid, hi)
  {
    assert forall k :: 0 <= k < SPP ==> PageSector(c, k) == PageSector(b, k);
    if Touched(b, w, lo, hi) {
      var k :| 0 <= k < SPP && CoversIn(w, PageSector(b, k), lo, hi);
      assert CoversIn(w, PageSector(b, k), lo, mid) || CoversIn(w, PageSector(c, k), mid, hi);
    }
    if Touched(b, w, lo, mid) {
      var k :| 0 <= k < SPP && CoversIn(w, PageSector(b, k), lo, mid);
      assert CoversIn(w, PageSector(b, k), lo, hi);
    }
    if Touched(c, w, mid, hi) {
      var k :| 0 <= k < SPP && CoversIn(w, PageSector(c, k), mid, hi);
      assert CoversIn(w, PageSector(b, k), lo, hi);
    }
  }

  /** The nested loops patch or mark exactly the buffers the write touches, each as
      if every sector had been applied to it on its own. */
  lemma {:induction false} PatchAllEffect(bufs: seq<Buf>, w: Write, done: nat, j: nat)
    requires Sized(bufs) && Unique(bufs) && |w.data| <= TWO_32 && done <= |w.data| && j < |bufs|
    ensures PatchAll(bufs, w, done)[j] == Patched(bufs[j], w, done, |w.data|)
    decreases |w.data| - done
  {
    if done < |w.data| {
      var run := RunOf(w.lba, done, |w.data|);
      var src := w.data[done..done + run];
      var p, within := PageOf(w.lba, done), WithinOf(w.lba, done);
      var next := PatchRun(bufs, w.drive, p, within, src, 0);
      PatchRunSized(bufs, w.drive, p, within, src, 0);
      forall i | 0 <= i < |bufs|
        ensures next[i] == Patched(bufs[i], w, done, done + run)
      {
        PatchRunEffect(bufs, w.drive, p, within, src, 0, i);
        RunIsPatch(bufs[i], w, done);
      }
      PatchAllEffect(next, w, done + run, j);
      PatchedCompose(bufs[j], w, done, done + run, |w.data|);
    }
  }

  // ---- the steps --------------------------------------------------------------------------

  function Put(s: State, t: nat, r: Reader): State {
    s.(readers := s.readers[t := r])
  }

  predicate Reading(s: State, t: nat) {
    t in s.readers && s.readers[t].phase.Top? && |s.readers[t].out| < s.readers[t].nsec
  }

  predicate Transferring(s: State, t: nat) {
    t in s.readers && s.readers[t].phase.Fetching? && s.readers[t].phase.buf < |s.bufs|
    && |s.bufs[s.readers[t].phase.buf].data| == SPP
  }

  /** The run a reader is at, out of a page in the cache. */
  function Taken(r: Reader, b: Buf): Reader
    requires |r.out| < r.nsec && |b.data| == SPP
  {
    var within := WithinOf(r.lba, |r.out|);
    r.(out := r.out + b.data[within..within + RunOf(r.lba, |r.out|, r.nsec)], phase := Top)
  }

  function LookedUp(s: State, t: nat): State
    requires Reading(s, t) && Sized(s.bufs)
  {
    var r := s.readers[t];
    var page := PageOf(r.lba, |r.out|);
    match Find(s.bufs, r.drive, page, 0)
    case Hit(i) =>
      var b := s.bufs[i].(stamp := s.clock + 1);
      Put(s.(clock := s.clock + 1, bufs := s.bufs[i := b]), t, Taken(r, b))
    case InFlight => s
    case Miss =>
      match Victim(s.bufs, 0, None)
      case None => s
      case Some(v) =>
        var b := s.bufs[v].(valid := false, busy := true, stale := false, page := page, drive := r.drive, got := 0);
        Put(s.(bufs := s.bufs[v := b]), t, r.(phase := Fetching(v)))
  }

  function Fetched(s: State, t: nat): State
    requires Transferring(s, t)
  {
    var i := s.readers[t].phase.buf;
    var b := s.bufs[i];
    if b.got < SPP then
      s.(bufs := s.bufs[i := b.(data := b.data[b.got := OnDisk(s, PageSector(b, b.got))], got := b.got + 1)])
    else s
  }

  function FetchOver(s: State, t: nat, ok: bool): State
    requires Transferring(s, t)
  {
    var r := s.readers[t];
    var i := r.phase.buf;
    var b := s.bufs[i];
    if !ok then
      Put(s.(bufs := s.bufs[i := b.(busy := false, page := NO_PAGE)]), t, r.(phase := Failed))
    else if b.got < SPP || r.nsec <= |r.out| then s
    else if b.stale then
      Put(s.(bufs := s.bufs[i := b.(busy := false, stale := false, page := NO_PAGE)]), t, r.(phase := Top))
    else
      var c := b.(busy := false, valid := true, stamp := s.clock + 1);
      Put(s.(clock := s.clock + 1, bufs := s.bufs[i := c]), t, Taken(r, c))
  }

  /** The disk once a write is complete. */
  function Landed(base: Disk, w: Write): Disk {
    a => if Covers(w, a) then w.data[Off(w, a)] else base(a)
  }

  function Move(s: State, a: Action): State
    requires Sized(s.bufs)
  {
    match a
    case StartRead(t, drive, lba, nsec) =>
      if t in s.readers && (s.readers[t].phase.Fetching? || Reading(s, t)) then s
      else if lba < TWO_64 && nsec < TWO_32 then Put(s, t, Reader(drive, lba, nsec, [], Top, |s.log|))
      else s
    case Lookup(t) => if Reading(s, t) then LookedUp(s, t) else s
    case FetchSector(t) => if Transferring(s, t) then Fetched(s, t) else s
    case FetchEnd(t, ok) => if Transferring(s, t) then FetchOver(s, t, ok) else s
    case StartWrite(drive, lba, data) =>
      if s.write.None? && lba < TWO_64 && |data| < TWO_32 then s.(write := Some(Write(drive, lba, data, 0))) else s
    case WriteSector =>
      if s.write.Some? && s.write.value.done < |s.write.value.data| then
        s.(write := Some(s.write.value.(done := s.write.value.done + 1)))
      else s
    case WriteFails => if s.write.Some? && s.write.value.done == 0 then s.(write := None) else s
    case WriteEnd =>
      if s.write.Some? && s.write.value.done == |s.write.value.data| then
        s.(base := Landed(s.base, s.write.value), write := None, bufs := PatchAll(s.bufs, s.write.value, 0))
      else s
  }

  // ---- what the cache stands for --------------------------------------------------------------

  /** The buffer that is valid or in flight for a page, if any. */
  function Holder(bufs: seq<Buf>, drive: nat, page: nat, from: nat): (r: Option<nat>)
    requires from <= |bufs|
    ensures r.Some? ==> from <= r.value < |bufs| && Live(bufs[r.value]) && Named(bufs[r.value], drive, page)
    ensures r.None? ==> forall j :: from <= j < |bufs| ==> !(Live(bufs[j]) && Named(bufs[j], drive, page))
    decreases |bufs| - from
  {
    if from == |bufs| then None
    else if Live(bufs[from]) && Named(bufs[from], drive, page) then Some(from)
    else Holder(bufs, drive, page, from + 1)
  }

  /** A buffer that already has sector `k` of its page and may publish it. */
  predicate Vouches(b: Buf, k: nat) {
    k < |b.data| && (b.valid || (b.busy && !b.stale && k < b.got))
  }

  /** The one value a sector has, as far as readers can tell: what the buffer that
      holds its page has or will publish, else what is on the disk. */
  function View(s: State, a: Addr): Sector {
    var h := Holder(s.bufs, a.drive, a.lba / SPP, 0);
    if h.Some? && Vouches(s.bufs[h.value], a.lba % SPP) then s.bufs[h.value].data[a.lba % SPP]
    else OnDisk(s, a)
  }

  function Step(s: State, a: Action): State
    requires Sized(s.bufs)
  {
    Move(s, a).(log := s.log + [Moment(x => View(s, x), s.base, s.write)])
  }

  // ---- the invariant ----------------------------------------------------------------------------

  ghost predicate BufInv(b: Buf) {
    && |b.data| == SPP && b.got <= SPP
    && !(b.valid && b.busy)
    && (b.valid ==> b.got == SPP)
    && (Live(b) ==> b.page < TWO_64 / SPP)
  }

  /** Whatever a buffer vouches for is on the disk, or was before the write in
      progress reached it. */
  ghost predicate Agrees(s: State, b: Buf, k: nat) {
    Vouches(b, k) ==> b.data[k] == OnDisk(s, PageSector(b, k)) || b.data[k] == s.base(PageSector(b, k))
  }

  ghost predicate Coherent(s: State) {
    forall i, k :: 0 <= i < |s.bufs| && 0 <= k < SPP ==> Agrees(s, s.bufs[i], k)
  }

  ghost predicate WriteInv(s: State) {
    s.write.Some? ==> s.write.value.done <= |s.write.value.data| < TWO_32
  }

  ghost predicate FetchInv(s: State, r: Reader) {
    r.phase.Fetching? ==>
      && r.phase.buf < |s.bufs| && s.bufs[r.phase.buf].busy
      && |r.out| < r.nsec
      && Named(s.bufs[r.phase.buf], r.drive, PageOf(r.lba, |r.out|))
  }

  ghost predicate FetchersApart(s: State) {
    forall t, u :: (t in s.readers && u in s.readers && t != u
                    && s.readers[t].phase.Fetching? && s.readers[u].phase.Fetching?) ==>
      s.readers[t].phase.buf != s.readers[u].phase.buf
  }

  ghost predicate CacheInv(s: State) {
    && (forall i :: 0 <= i < |s.bufs| ==> BufInv(s.bufs[i]))
    && Unique(s.bufs) && Coherent(s) && WriteInv(s)
    && (forall t :: t in s.readers ==> FetchInv(s, s.readers[t]))
    && FetchersApart(s)
  }

  // ---- what the invariant says about the view ------------------------------------------------------

  lemma {:induction false} HolderIs(bufs: seq<Buf>, drive: nat, page: nat, from: nat, i: nat)
    requires Unique(bufs) && from <= i < |bufs| && Live(bufs[i]) && Named(bufs[i], drive, page)
    ensures Holder(bufs, drive, page, from) == Some(i)
    decreases |bufs| - from
  {
    if from < i {
      HolderIs(bufs, drive, page, from + 1, i);
    }
  }

  /** Replacing a buffer that does not hold a page by one that does not either. */
  lemma {:induction false} HolderElsewhere(bufs: seq<Buf>, i: nat, b: Buf, drive: nat, page: nat, from: nat)
    requires i < |bufs| && from <= |bufs|
    requires !(Live(bufs[i]) && Named(bufs[i], drive, page)) && !(Live(b) && Named(b, drive, page))
    ensures Holder(bufs[i := b], drive, page, from) == Holder(bufs, drive, page, from)
    decreases |bufs| - from
  {
    if from < |bufs| {
      HolderElsewhere(bufs, i, b, drive, page, from + 1);
    }
  }

  lemma SectorOf(a: Addr, b: Buf)
    requires Named(b, a.drive, a.lba / SPP)
    ensures PageSector(b, a.lba % SPP) == a
  {
  }

  /** The view is always what is on the disk or what the write in progress is
      about to replace. */
  lemma ViewIsOldOrNew(s: State, a: Addr)
    requires CacheInv(s)
    ensures View(s, a) == OnDisk(s, a) || View(s, a) == s.base(a)
  {
    var h := Holder(s.bufs, a.drive, a.lba / SPP, 0);
    if h.Some? {
      SectorOf(a, s.bufs[h.value]);
      assert Agrees(s, s.bufs[h.value], a.lba % SPP);
    }
  }

  /** A step either leaves a sector's value alone or moves it, once, from what it
      was before the write in progress to what that write puts there. */
  ghost predicate Evolves(s: State, u: State, a: Addr) {
    || View(u, a) == View(s, a)
    || (s.write.Some? && Covers(s.write.value, a)
        && View(s, a) == s.base(a) && View(u, a) == s.write.value.data[Off(s.write.value, a)])
  }

  lemma DiskIsOldOrWritten(s: State, a: Addr)
    requires WriteInv(s)
    ensures OnDisk(s, a) == s.base(a)
         || (s.write.Some? && Covers(s.write.value, a) && OnDisk(s, a) == s.write.value.data[Off(s.write.value, a)])
  {
  }

  /** When the view falls back from a buffer to the disk. */
  lemma FallsBack(s: State, u: State, a: Addr)
    requires CacheInv(s) && View(u, a) == OnDisk(s, a)
    ensures Evolves(s, u, a)
  {
    ViewIsOldOrNew(s, a);
    DiskIsOldOrWritten(s, a);
  }

  // ---- changing one buffer -----------------------------------------------------------------------------

  /** One buffer changes and the disk does not. */
  ghost predicate OneChanged(s: State, u: State, i: nat) {
    && i < |s.bufs| && |u.bufs| == |s.bufs| && u.bufs == s.bufs[i := u.bufs[i]]
    && u.base == s.base && u.write == s.write
  }

  lemma ViewElsewhere(s: State, u: State, i: nat, a: Addr)
    requires OneChanged(s, u, i)
    requires !(Live(s.bufs[i]) && Named(s.bufs[i], a.drive, a.lba / SPP))
    requires !(Live(u.bufs[i]) && Named(u.bufs[i], a.drive, a.lba / SPP))
    ensures View(u, a) == View(s, a)
  {
    HolderElsewhere(s.bufs, i, u.bufs[i], a.drive, a.lba / SPP, 0);
  }

  /** The view of a page through the buffer that holds it. */
  lemma ViewThrough(s: State, i: nat, a: Addr)
    requires Unique(s.bufs) && i < |s.bufs| && Live(s.bufs[i]) && Named(s.bufs[i], a.drive, a.lba / SPP)
    ensures View(s, a) == if Vouches(s.bufs[i], a.lba % SPP) then s.bufs[i].data[a.lba % SPP] else OnDisk(s, a)
  {
    HolderIs(s.bufs, a.drive, a.lba / SPP, 0, i);
  }

  /** The view of a page nobody holds. */
  lemma ViewUncached(s: State, a: Addr)
    requires forall j :: 0 <= j < |s.bufs| ==> !(Live(s.bufs[j]) && Named(s.bufs[j], a.drive, a.lba / SPP))
    ensures View(s, a) == OnDisk(s, a)
  {
  }

  ghost predicate BufsInv(s: State) {
    (forall i :: 0 <= i < |s.bufs| ==> BufInv(s.bufs[i])) && Unique(s.bufs) && Coherent(s) && WriteInv(s)
  }

  lemma OneChangedKeeps(s: State, u: State, i: nat)
    requires BufsInv(s) && OneChanged(s, u, i) && BufInv(u.bufs[i])
    requires forall k :: 0 <= k < SPP ==> Agrees(s, u.bufs[i], k)
    requires forall j :: 0 <= j < |s.bufs| && j != i && Live(u.bufs[i]) && Live(s.bufs[j]) ==>
               !Named(s.bufs[j], u.bufs[i].drive, u.bufs[i].page)
    ensures BufsInv(u)
  {
    forall j, k | 0 <= j < |u.bufs| && 0 <= k < SPP
      ensures Agrees(u, u.bufs[j], k)
    {
      assert Agrees(s, u.bufs[j], k);
    }
  }

  // ---- bio_read's steps ------------------------------------------------------------------------------------

  lemma HitKeeps(s: State, t: nat, i: nat)
    requires CacheInv(s) && Reading(s, t) && Sized(s.bufs)
    requires Find(s.bufs, s.readers[t].drive, PageOf(s.readers[t].lba, |s.readers[t].out|), 0) == Hit(i)
    ensures CacheInv(LookedUp(s, t))
    ensures forall a :: Evolves(s, LookedUp(s, t), a)
  {
    var u := LookedUp(s, t);
    assert forall k :: 0 <= k < SPP ==> Agrees(s, s.bufs[i], k) && PageSector(u.bufs[i], k) == PageSector(s.bufs[i], k);
    assert OneChanged(s, u, i);
    OneChangedKeeps(s, u, i);
    forall a
      ensures View(u, a) == View(s, a)
    {
      if Named(s.bufs[i], a.drive, a.lba / SPP) {
        ViewThrough(s, i, a);
        ViewThrough(u, i, a);
      } else {
        ViewElsewhere(s, u, i, a);
      }
    }
  }

  lemma ClaimKeeps(s: State, t: nat, v: nat)
    requires CacheInv(s) && Reading(s, t) && Sized(s.bufs)
    requires Find(s.bufs, s.readers[t].drive, PageOf(s.readers[t].lba, |s.readers[t].out|), 0) == Miss
    requires Victim(s.bufs, 0, None) == Some(v)
    ensures CacheInv(LookedUp(s, t))
    ensures forall a :: Evolves(s, LookedUp(s, t), a)
  {
    var u := LookedUp(s, t);
    assert OneChanged(s, u, v);
    OneChangedKeeps(s, u, v);
    forall a
      ensures Evolves(s, u, a)
    {
      if Named(u.bufs[v], a.drive, a.lba / SPP) {
        ViewThrough(u, v, a);
        FallsBack(s, u, a);
      } else if Live(s.bufs[v]) && Named(s.bufs[v], a.drive, a.lba / SPP) {
        ViewUncached(u, a);
        FallsBack(s, u, a);
      } else {
        ViewElsewhere(s, u, v, a);
      }
    }
  }

  lemma FetchKeeps(s: State, t: nat)
    requires CacheInv(s) && Transferring(s, t)
    ensures CacheInv(Fetched(s, t))
    ensures forall a :: Evolves(s, Fetched(s, t), a)
  {
    var u := Fetched(s, t);
    var i := s.readers[t].phase.buf;
    var b := s.bufs[i];
    assert FetchInv(s, s.readers[t]);
    if b.got < SPP {
      assert OneChanged(s, u, i);
      forall k | 0 <= k < SPP
        ensures Agrees(s, u.bufs[i], k)
      {
        assert Agrees(s, b, k) && PageSector(u.bufs[i], k) == PageSector(b, k);
      }
      OneChangedKeeps(s, u, i);
      forall a
        ensures View(u, a) == View(s, a)
      {
        if Named(b, a.drive, a.lba / SPP) {
          ViewThrough(s, i, a);
          ViewThrough(u, i, a);
          SectorOf(a, b);
        } else {
          ViewElsewhere(s, u, i, a);
        }
      }
    }
  }

  /** A transfer that ends with nothing to show: the buffer is let go. */
  lemma DiscardKeeps(s: State, t: nat, ok: bool)
    requires CacheInv(s) && Transferring(s, t)
    requires !ok || (s.bufs[s.readers[t].phase.buf].got == SPP && s.bufs[s.readers[t].phase.buf].stale)
    ensures CacheInv(FetchOver(s, t, ok))
    ensures forall a :: Evolves(s, FetchOver(s, t, ok), a)
  {
    var u := FetchOver(s, t, ok);
    var i := s.readers[t].phase.buf;
    assert FetchInv(s, s.readers[t]);
    assert OneChanged(s, u, i);
    OneChangedKeeps(s, u, i);
    forall a
      ensures Evolves(s, u, a)
    {
      if Named(s.bufs[i], a.drive, a.lba / SPP) {
        ViewUncached(u, a);
        FallsBack(s, u, a);
      } else {
        ViewElsewhere(s, u, i, a);
      }
    }
  }

  lemma PublishKeeps(s: State, t: nat)
    requires CacheInv(s) && Transferring(s, t)
    requires s.bufs[s.readers[t].phase.buf].got == SPP && !s.bufs[s.readers[t].phase.buf].stale
    ensures CacheInv(FetchOver(s, t, true))
    ensures forall a :: Evolves(s, FetchOver(s, t, true), a)
  {
    var u := FetchOver(s, t, true);
    var i := s.readers[t].phase.buf;
    assert FetchInv(s, s.readers[t]);
    assert OneChanged(s, u, i);
    assert forall k :: 0 <= k < SPP ==> Agrees(s, s.bufs[i], k) && PageSector(u.bufs[i], k) == PageSector(s.bufs[i], k);
    OneChangedKeeps(s, u, i);
    forall a
      ensures View(u, a) == View(s, a)
    {
      if Named(s.bufs[i], a.drive, a.lba / SPP) {
        ViewThrough(s, i, a);
        ViewThrough(u, i, a);
      } else {
        ViewElsewhere(s, u, i, a);
      }
    }
  }

  // ---- bio_write's steps -------------------------------------------------------------------------------------

  /** The write changes and the buffers do not. */
  lemma WriteOnlyView(s: State, u: State, a: Addr)
    requires u.bufs == s.bufs
    requires OnDisk(u, a) == OnDisk(s, a)
    ensures View(u, a) == View(s, a)
  {
  }

  lemma StartWriteKeeps(s: State, w: Write)
    requires CacheInv(s) && s.write.None? && |w.data| < TWO_32 && w.done == 0
    ensures CacheInv(s.(write := Some(w)))
    ensures forall a :: View(s.(write := Some(w)), a) == View(s, a)
  {
    var u := s.(write := Some(w));
    forall i, k | 0 <= i < |u.bufs| && 0 <= k < SPP
      ensures Agrees(u, u.bufs[i], k)
    {
      assert Agrees(s, s.bufs[i], k);
    }
    assert forall t :: t in u.readers ==> FetchInv(s, u.readers[t]);
    forall a
      ensures View(u, a) == View(s, a)
    {
      WriteOnlyView(s, u, a);
    }
  }

  lemma FailKeeps(s: State)
    requires CacheInv(s) && Sized(s.bufs) && s.write.Some? && s.write.value.done == 0
    ensures CacheInv(Move(s, WriteFails))
    ensures forall a :: View(Move(s, WriteFails), a) == View(s, a)
  {
    var u := s.(write := None);
    forall i, k | 0 <= i < |u.bufs| && 0 <= k < SPP
      ensures Agrees(u, u.bufs[i], k)
    {
      assert Agrees(s, s.bufs[i], k);
    }
    assert forall t :: t in u.readers ==> FetchInv(s, u.readers[t]);
    forall a
      ensures View(u, a) == View(s, a)
    {
      WriteOnlyView(s, u, a);
    }
  }

  lemma SectorKeeps(s: State)
    requires CacheInv(s) && Sized(s.bufs) && s.write.Some? && s.write.value.done < |s.write.value.data|
    ensures CacheInv(Move(s, WriteSector))
    ensures forall a :: Evolves(s, Move(s, WriteSector), a)
  {
    var w := s.write.value;
    var u := s.(write := Some(w.(done := w.done + 1)));
    forall i, k | 0 <= i < |u.bufs| && 0 <= k < SPP
      ensures Agrees(u, u.bufs[i], k)
    {
      assert Agrees(s, s.bufs[i], k);
      var a := PageSector(s.bufs[i], k);
      assert OnDisk(u, a) == OnDisk(s, a) || OnDisk(s, a) == s.base(a);
    }
    assert forall t :: t in u.readers ==> FetchInv(s, u.readers[t]);
    forall a
      ensures Evolves(s, u, a)
    {
      if OnDisk(u, a) == OnDisk(s, a) {
        WriteOnlyView(s, u, a);
      }
    }
  }

  /** One buffer after a completed write: what it still vouches for is on the disk. */
  lemma PatchAgrees(s: State, u: State, b: Buf, k: nat)
    requires s.write.Some? && WriteInv(s) && s.write.value.done == |s.write.value.data|
    requires u.write.None? && u.base == Landed(s.base, s.write.value)
    requires BufInv(b) && k < SPP && Agrees(s, b, k)
    ensures var c := Patched(b, s.write.value, 0, |s.write.value.data|);
            Vouches(c, k) ==> c.data[k] == u.base(PageSector(c, k))
  {
    var w := s.write.value;
    var c := Patched(b, w, 0, |w.data|);
    var a := PageSector(b, k);
    assert PageSector(c, k) == a;
    assert Live(b) && Covers(w, a) ==> Touched(b, w, 0, |w.data|);
    DiskIsOldOrWritten(s, a);
  }

  lemma PatchShape(b: Buf, w: Write)
    requires BufInv(b)
    ensures var c := Patched(b, w, 0, |w.data|);
            BufInv(c) && c.drive == b.drive && c.page == b.page && c.valid == b.valid && c.busy == b.busy
  {
  }

  lemma EndKeepsInv(s: State)
    requires CacheInv(s) && Sized(s.bufs) && s.write.Some? && s.write.value.done == |s.write.value.data|
    ensures CacheInv(Move(s, WriteEnd))
  {
    var w := s.write.value;
    var u := Move(s, WriteEnd);
    forall i | 0 <= i < |s.bufs|
      ensures u.bufs[i] == Patched(s.bufs[i], w, 0, |w.data|)
      ensures BufInv(u.bufs[i]) && u.bufs[i].drive == s.bufs[i].drive && u.bufs[i].page == s.bufs[i].page
      ensures u.bufs[i].valid == s.bufs[i].valid && u.bufs[i].busy == s.bufs[i].busy
    {
      PatchAllEffect(s.bufs, w, 0, i);
      PatchShape(s.bufs[i], w);
    }
    forall i, k | 0 <= i < |u.bufs| && 0 <= k < SPP
      ensures Agrees(u, u.bufs[i], k)
    {
      assert Agrees(s, s.bufs[i], k);
      PatchAgrees(s, u, s.bufs[i], k);
    }
    assert forall t :: t in u.readers ==> FetchInv(s, u.readers[t]);
  }

  /** After a write ends, the view is the disk, and the disk is the write. */
  lemma EndView(s: State, a: Addr)
    requires CacheInv(s) && Sized(s.bufs) && s.write.Some? && s.write.value.done == |s.write.value.data|
    ensures View(Move(s, WriteEnd), a) == Landed(s.base, s.write.value)(a)
  {
    var u := Move(s, WriteEnd);
    EndKeepsInv(s);
    ViewIsOldOrNew(u, a);
  }

  lemma EndKeeps(s: State)
    requires CacheInv(s) && Sized(s.bufs) && s.write.Some? && s.write.value.done == |s.write.value.data|
    ensures CacheInv(Move(s, WriteEnd))
    ensures forall a :: Evolves(s, Move(s, WriteEnd), a)
  {
    EndKeepsInv(s);
    hide CacheInv, Move, View;
    forall a
      ensures Evolves(s, Move(s, WriteEnd), a)
    {
      EndView(s, a);
      ViewIsOldOrNew(s, a);
      EndDisk(s, a);
    }
  }

  lemma EndDisk(s: State, a: Addr)
    requires CacheInv(s) && s.write.Some? && s.write.value.done == |s.write.value.data|
    ensures OnDisk(s, a) == Landed(s.base, s.write.value)(a)
    ensures !Covers(s.write.value, a) ==> Landed(s.base, s.write.value)(a) == s.base(a)
  {
    var w := s.write.value;
    assert Landed(s.base, w)(a) == if Covers(w, a) then w.data[Off(w, a)] else s.base(a);
    assert CoversIn(w, a, 0, w.done) <==> Covers(w, a);
  }

  // ---- every step keeps the invariant and evolves the view -----------------------------------------------------

  lemma InvSized(s: State)
    requires CacheInv(s)
    ensures Sized(s.bufs)
  {
  }

  lemma LookupKeeps(s: State, t: nat)
    requires CacheInv(s) && Sized(s.bufs) && Reading(s, t)
    ensures CacheInv(LookedUp(s, t))
    ensures forall a :: Evolves(s, LookedUp(s, t), a)
  {
    var r := s.readers[t];
    var f := Find(s.bufs, r.drive, PageOf(r.lba, |r.out|), 0);
    if f.Hit? {
      HitKeeps(s, t, f.i);
    } else if f.Miss? {
      var v := Victim(s.bufs, 0, None);
      if v.Some? {
        ClaimKeeps(s, t, v.value);
      }
    }
  }

  lemma FetchEndKeeps(s: State, t: nat, ok: bool)
    requires CacheInv(s) && Transferring(s, t)
    ensures CacheInv(FetchOver(s, t, ok))
    ensures forall a :: Evolves(s, FetchOver(s, t, ok), a)
  {
    var b := s.bufs[s.readers[t].phase.buf];
    assert BufInv(b);
    if !ok || (b.got == SPP && b.stale) {
      DiscardKeeps(s, t, ok);
    } else if b.got == SPP {
      PublishKeeps(s, t);
    }
  }

  lemma StartReadKeeps(s: State, t: nat, r: Reader)
    requires CacheInv(s) && r.phase.Top?
    ensures CacheInv(Put(s, t, r))
    ensures forall a :: View(Put(s, t, r), a) == View(s, a)
  {
    var u := Put(s, t, r);
    forall i, k | 0 <= i < |u.bufs| && 0 <= k < SPP
      ensures Agrees(u, u.bufs[i], k)
    {
      assert Agrees(s, s.bufs[i], k);
    }
    forall x | x in u.readers
      ensures FetchInv(u, u.readers[x])
    {
      assert x != t ==> FetchInv(s, s.readers[x]);
    }
    forall a
      ensures View(u, a) == View(s, a)
    {
      WriteOnlyView(s, u, a);
    }
  }

  lemma MoveKeeps(s: State, a: Action)
    requires CacheInv(s) && Sized(s.bufs)
    ensures CacheInv(Move(s, a))
    ensures forall x :: Evolves(s, Move(s, a), x)
  {
    hide CacheInv, LookedUp, Fetched, FetchOver, View;
    match a
    case StartRead(t, drive, lba, nsec) => StartReadKeeps(s, t, Reader(drive, lba, nsec, [], Top, |s.log|));
    case Lookup(t) => if Reading(s, t) { LookupKeeps(s, t); }
    case FetchSector(t) => if Transferring(s, t) { FetchKeeps(s, t); }
    case FetchEnd(t, ok) => if Transferring(s, t) { FetchEndKeeps(s, t, ok); }
    case StartWrite(drive, lba, data) =>
      if s.write.None? && |data| < TWO_32 { StartWriteKeeps(s, Write(drive, lba, data, 0)); }
    case WriteSector =>
      if s.write.Some? && s.write.value.done < |s.write.value.data| { SectorKeeps(s); }
    case WriteFails => if s.write.Some? && s.write.value.done == 0 { FailKeeps(s); }
    case WriteEnd =>
      if s.write.Some? && s.write.value.done == |s.write.value.data| { EndKeeps(s); }
  }

  // ---- whole runs ------------------------------------------------------------------------------------------------

  function Empty(): Buf {
    Buf(0, NO_PAGE, 0, seq(SPP, _ => []), 0, false, false, false)
  }

  /** bio_init: `n` buffers that claim no page. */
  function Init(disk: Disk, n: nat): State {
    State(disk, None, seq(n, _ => Empty()), 0, map[], [])
  }

  lemma LogOnly(s: State, log: seq<Moment>)
    requires CacheInv(s)
    ensures CacheInv(s.(log := log))
    ensures forall a :: View(s.(log := log), a) == View(s, a)
  {
    var u := s.(log := log);
    forall i, k | 0 <= i < |u.bufs| && 0 <= k < SPP
      ensures Agrees(u, u.bufs[i], k)
    {
      assert Agrees(s, s.bufs[i], k);
    }
    forall t | t in u.readers
      ensures FetchInv(u, u.readers[t])
    {
      assert FetchInv(s, s.readers[t]);
    }
    forall a
      ensures View(u, a) == View(s, a)
    {
      WriteOnlyView(s, u, a);
    }
  }

  lemma StepKeeps(s: State, a: Action)
    requires CacheInv(s)
    ensures Sized(s.bufs) && CacheInv(Step(s, a)) && Sized(Step(s, a).bufs)
    ensures forall x :: Evolves(s, Step(s, a), x)
  {
    InvSized(s);
    hide CacheInv, Move, View;
    MoveKeeps(s, a);
    var log := s.log + [Moment(x => View(s, x), s.base, s.write)];
    LogOnly(Move(s, a), log);
    InvSized(Step(s, a));
    forall x
      ensures Evolves(s, Step(s, a), x)
    {
      assert Evolves(s, Move(s, a), x);
    }
  }

  function Run(s: State, acts: seq<Action>): State
    requires CacheInv(s)
    decreases |acts|
  {
    if acts == [] then s
    else
      StepKeeps(s, acts[0]);
      Run(Step(s, acts[0]), acts[1..])
  }

  lemma InitInv(disk: Disk, n: nat)
    ensures CacheInv(Init(disk, n))
  {
  }

  // ---- what readers get ---------------------------------------------------------------------------------------------

  /** `v` was the value of `a` at some moment from `from` on. */
  ghost predicate Seen(log: seq<Moment>, from: nat, a: Addr, v: Sector) {
    exists m :: from <= m < |log| && log[m].view(a) == v
  }

  ghost predicate ReadInv(s: State, r: Reader) {
    && r.start <= |s.log| && |r.out| <= r.nsec
    && (forall k :: 0 <= k < |r.out| ==> Seen(s.log, r.start, Nth(r.drive, r.lba, k), r.out[k]))
  }

  /** A moment's values: completed writes applied, or those and the one in progress. */
  ghost predicate MomentOk(m: Moment) {
    forall a :: m.view(a) == m.base(a)
             || (m.write.Some? && Covers(m.write.value, a) && m.view(a) == m.write.value.data[Off(m.write.value, a)])
  }

  ghost predicate ReadsInv(s: State) {
    && (forall t :: t in s.readers ==> ReadInv(s, s.readers[t]))
    && (forall m :: 0 <= m < |s.log| ==> MomentOk(s.log[m]))
  }

  lemma RunAddress(lba: nat, k: nat, d: nat)
    requires WithinOf(lba, k) + d < SPP
    ensures (lba + (k + d)) % TWO_64 / SPP == PageOf(lba, k)
    ensures (lba + (k + d)) % TWO_64 % SPP == WithinOf(lba, k) + d
  {
    var x := (lba + k) % TWO_64;
    assert x + d < TWO_64;
    assert lba + (k + d) == (x + d) + TWO_64 * ((lba + k) / TWO_64);
    SameMod(x + d, lba + (k + d), (lba + k) / TWO_64);
  }

  /** The run a reader copies out of a page is the view of its sectors. */
  lemma RunIsView(s: State, r: Reader, i: nat, d: nat)
    requires CacheInv(s) && i < |s.bufs| && |r.out| < r.nsec && d < RunOf(r.lba, |r.out|, r.nsec)
    requires Named(s.bufs[i], r.drive, PageOf(r.lba, |r.out|))
    requires Vouches(s.bufs[i], WithinOf(r.lba, |r.out|) + d)
    ensures s.bufs[i].data[WithinOf(r.lba, |r.out|) + d] == View(s, Nth(r.drive, r.lba, |r.out| + d))
  {
    RunAddress(r.lba, |r.out|, d);
    ViewThrough(s, i, Nth(r.drive, r.lba, |r.out| + d));
  }

  lemma TakenSeen(s: State, u: State, r: Reader, i: nat, b: Buf)
    requires CacheInv(s) && ReadInv(s, r) && i < |s.bufs| && |r.out| < r.nsec
    requires Named(s.bufs[i], r.drive, PageOf(r.lba, |r.out|))
    requires s.bufs[i].valid || (s.bufs[i].busy && !s.bufs[i].stale && s.bufs[i].got == SPP)
    requires b.data == s.bufs[i].data
    requires u.log == s.log + [Moment(x => View(s, x), s.base, s.write)]
    ensures ReadInv(u, Taken(r, b))
  {
    var n, run := |r.out|, RunOf(r.lba, |r.out|, r.nsec);
    var r' := Taken(r, b);
    forall k | 0 <= k < |r'.out|
      ensures Seen(u.log, r.start, Nth(r.drive, r.lba, k), r'.out[k])
    {
      if k < n {
        SeenStays(s.log, u.log, r.start, Nth(r.drive, r.lba, k), r.out[k]);
      } else {
        RunIsView(s, r, i, k - n);
        assert u.log[|s.log|].view(Nth(r.drive, r.lba, k)) == r'.out[k];
      }
    }
  }

  lemma SeenStays(log: seq<Moment>, more: seq<Moment>, from: nat, a: Addr, v: Sector)
    requires log <= more && Seen(log, from, a, v)
    ensures Seen(more, from, a, v)
  {
    var m :| from <= m < |log| && log[m].view(a) == v;
    assert more[m] == log[m];
  }

  lemma SameReader(s: State, u: State, r: Reader, r': Reader)
    requires ReadInv(s, r) && s.log <= u.log
    requires r' == r.(phase := r'.phase)
    ensures ReadInv(u, r')
  {
    forall k | 0 <= k < |r.out|
      ensures Seen(u.log, r.start, Nth(r.drive, r.lba, k), r.out[k])
    {
      SeenStays(s.log, u.log, r.start, Nth(r.drive, r.lba, k), r.out[k]);
    }
  }

  lemma LookupReads(s: State, t: nat)
    requires CacheInv(s) && Sized(s.bufs) && Reading(s, t) && ReadInv(s, s.readers[t])
    ensures t in Step(s, Lookup(t)).readers && ReadInv(Step(s, Lookup(t)), Step(s, Lookup(t)).readers[t])
  {
    var r := s.readers[t];
    var u := Step(s, Lookup(t));
    var f := Find(s.bufs, r.drive, PageOf(r.lba, |r.out|), 0);
    if f.Hit? {
      TakenSeen(s, u, r, f.i, s.bufs[f.i].(stamp := s.clock + 1));
    } else {
      SameReader(s, u, r, u.readers[t]);
    }
  }

  lemma FetchEndReads(s: State, t: nat, ok: bool)
    requires CacheInv(s) && Sized(s.bufs) && Transferring(s, t) && ReadInv(s, s.readers[t])
    ensures t in Step(s, FetchEnd(t, ok)).readers
    ensures ReadInv(Step(s, FetchEnd(t, ok)), Step(s, FetchEnd(t, ok)).readers[t])
  {
    var r := s.readers[t];
    var u := Step(s, FetchEnd(t, ok));
    var i := r.phase.buf;
    var b := s.bufs[i];
    assert FetchInv(s, r) && BufInv(b);
    if ok && b.got == SPP && !b.stale {
      TakenSeen(s, u, r, i, b.(busy := false, valid := true, stamp := s.clock + 1));
    } else {
      SameReader(s, u, r, u.readers[t]);
    }
  }

  lemma MomentIsOk(s: State)
    requires CacheInv(s)
    ensures MomentOk(Moment(x => View(s, x), s.base, s.write))
  {
    forall a
      ensures View(s, a) == s.base(a)
           || (s.write.Some? && Covers(s.write.value, a) && View(s, a) == s.write.value.data[Off(s.write.value, a)])
    {
      ViewIsOldOrNew(s, a);
      DiskIsOldOrWritten(s, a);
    }
  }

  lemma StepReads(s: State, a: Action)
    requires CacheInv(s) && Sized(s.bufs) && ReadsInv(s)
    ensures ReadsInv(Step(s, a))
  {
    var u := Step(s, a);
    assert u.log == s.log + [Moment(x => View(s, x), s.base, s.write)];
    MomentIsOk(s);
    forall t | t in u.readers
      ensures ReadInv(u, u.readers[t])
    {
      StepReader(s, a, t);
    }
  }

  lemma StepReader(s: State, a: Action, t: nat)
    requires CacheInv(s) && Sized(s.bufs) && ReadsInv(s) && t in Step(s, a).readers
    ensures ReadInv(Step(s, a), Step(s, a).readers[t])
  {
    var u := Step(s, a);
    if a.StartRead? && a.t == t {
      if t in s.readers && u.readers[t] == s.readers[t] {
        SameReader(s, u, s.readers[t], u.readers[t]);
      }
    } else if a.Lookup? && a.t == t && Reading(s, t) {
      LookupReads(s, t);
    } else if a.FetchEnd? && a.t == t && Transferring(s, t) {
      FetchEndReads(s, t, a.ok);
    } else {
      assert t in s.readers && u.readers[t] == s.readers[t];
      SameReader(s, u, s.readers[t], u.readers[t]);
    }
  }

  // ---- what every run guarantees ---------------------------------------------------------------------------------------

  lemma {:induction false} RunKeeps(s: State, acts: seq<Action>)
    requires CacheInv(s) && ReadsInv(s)
    ensures CacheInv(Run(s, acts)) && ReadsInv(Run(s, acts))
    decreases |acts|
  {
    if acts != [] {
      StepKeeps(s, acts[0]);
      StepReads(s, acts[0]);
      RunKeeps(Step(s, acts[0]), acts[1..]);
    }
  }

  /** Over every interleaving of readers and one writer at a time: no two buffers
      are valid or in flight for one page, and every valid buffer equals the disk on
      each sector the write in progress has not reached: the whole page, once no
      write is in progress. */
  lemma CoherentOverRuns(disk: Disk, n: nat, acts: seq<Action>, i: nat, k: nat)
    ensures CacheInv(Init(disk, n))
    ensures var s := Run(Init(disk, n), acts);
            && Unique(s.bufs)
            && (i < |s.bufs| && k < SPP && s.bufs[i].valid
                && !(s.write.Some? && CoversIn(s.write.value, PageSector(s.bufs[i], k), 0, s.write.value.done)) ==>
                  k < |s.bufs[i].data| && s.bufs[i].data[k] == OnDisk(s, PageSector(s.bufs[i], k)))
  {
    InitInv(disk, n);
    RunKeeps(Init(disk, n), acts);
    var s := Run(Init(disk, n), acts);
    if i < |s.bufs| && k < SPP {
      assert BufInv(s.bufs[i]) && Agrees(s, s.bufs[i], k);
      DiskIsOldOrWritten(s, PageSector(s.bufs[i], k));
    }
  }

  /** The cache refines a disk without one: each sector has a single value that
      readers see, no step moves it except from before the write in progress to
      after it, and once bio_write returns every sector it covers has its new value. */
  lemma AtomicSectors(disk: Disk, n: nat, acts: seq<Action>, a: Action, x: Addr)
    ensures CacheInv(Init(disk, n))
    ensures var s := Run(Init(disk, n), acts);
            && Sized(s.bufs)
            && Evolves(s, Step(s, a), x)
            && (a == WriteEnd && s.write.Some? && Step(s, a).write.None? && Covers(s.write.value, x) ==>
                  View(Step(s, a), x) == s.write.value.data[Off(s.write.value, x)])
  {
    InitInv(disk, n);
    RunKeeps(Init(disk, n), acts);
    var s := Run(Init(disk, n), acts);
    StepKeeps(s, a);
    if a == WriteEnd && s.write.Some? && s.write.value.done == |s.write.value.data| {
      EndView(s, x);
      EndKeepsInv(s);
      LogOnly(Move(s, a), Step(s, a).log);
    }
  }

  /** A bio_read hands back at most the sectors asked for, in order, and each of them is,
      at some moment of that call, the sector with all completed writes applied, or with
      the one in progress applied as well. */
  lemma ReadsAreCurrent(disk: Disk, n: nat, acts: seq<Action>, t: nat, k: nat)
    ensures CacheInv(Init(disk, n))
    ensures var s := Run(Init(disk, n), acts);
            t in s.readers ==>
              var r := s.readers[t];
              && |r.out| <= r.nsec
              && (k < |r.out| ==>
                    exists m :: r.start <= m < |s.log| && Allows(s.log[m], Nth(r.drive, r.lba, k), r.out[k]))
  {
    InitInv(disk, n);
    RunKeeps(Init(disk, n), acts);
    var s := Run(Init(disk, n), acts);
    if t in s.readers { assert ReadInv(s, s.readers[t]); }
    if t in s.readers && k < |s.readers[t].out| {
      var r := s.readers[t];
      var x := Nth(r.drive, r.lba, k);
      assert Seen(s.log, r.start, x, r.out[k]);
      var m :| r.start <= m < |s.log| && s.log[m].view(x) == r.out[k];
      assert MomentOk(s.log[m]);
      assert Allows(s.log[m], x, r.out[k]);
    }
  }

  ghost predicate Allows(m: Moment, a: Addr, v: Sector) {
    && m.view(a) == v
    && (v == m.base(a) || (m.write.Some? && Covers(m.write.value, a) && v == m.write.value.data[Off(m.write.value, a)]))
  }

  // ---- what each call answers --------------------------------------------------------------------------------------------------

  /** Where a reader is: the page of its next sector, its place there, and how many
      sectors that page has for it. */
  function Gain(r: Reader): nat
    requires |r.out| < r.nsec
  {
    Min(8 - (r.lba + |r.out|) % TWO_64 % 8, r.nsec - |r.out|)
  }

  predicate AtPage(b: Buf, r: Reader) {
    b.drive == r.drive && b.page == (r.lba + |r.out|) % TWO_64 / 8
  }

  /** The reader once the next run has been copied out of `data`. */
  ghost predicate Gained(r: Reader, after: Reader, data: seq<Sector>)
    requires |r.out| < r.nsec
  {
    var within := (r.lba + |r.out|) % TWO_64 % 8;
    && within + Gain(r) <= |data|
    && after == r.(out := r.out + data[within..within + Gain(r)], phase := Top)
  }

  /** A pass of bio_read's loop: a page in the cache gives its run at once; a page being
      fetched, or no buffer to spare, leaves everything as it was; else a buffer not in
      flight is claimed for the page and the fetch begins. */
  lemma LookupExactly(s: State, t: nat)
    requires CacheInv(s) && Reading(s, t)
    ensures Sized(s.bufs)
    ensures var r := s.readers[t];
            var u := Step(s, Lookup(t));
            && u.base == s.base && u.write == s.write && u.readers.Keys == s.readers.Keys
            && (forall i :: 0 <= i < |s.bufs| && s.bufs[i].valid && AtPage(s.bufs[i], r) ==>
                  Gained(r, u.readers[t], s.bufs[i].data))
            && ((exists i :: 0 <= i < |s.bufs| && s.bufs[i].busy && AtPage(s.bufs[i], r)) ==>
                  u.readers == s.readers && u.bufs == s.bufs)
            && ((forall i :: 0 <= i < |s.bufs| && AtPage(s.bufs[i], r) ==> !Live(s.bufs[i])) ==>
                  if forall i :: 0 <= i < |s.bufs| ==> s.bufs[i].busy then u.readers == s.readers && u.bufs == s.bufs
                  else exists v: nat :: Claims(s, u, t, v))
  {
    hide Victim, Coherent, FetchersApart, FetchInv, View;
    InvSized(s);
    var r := s.readers[t];
    var page := PageOf(r.lba, |r.out|);
    var f := Find(s.bufs, r.drive, page, 0);
    forall i | 0 <= i < |s.bufs| && Live(s.bufs[i]) && AtPage(s.bufs[i], r)
      ensures BufInv(s.bufs[i]) && if s.bufs[i].busy then f == InFlight else f == Hit(i)
    {
      FindIs(s.bufs, r.drive, page, 0, i);
    }
    if forall i :: 0 <= i < |s.bufs| && AtPage(s.bufs[i], r) ==> !Live(s.bufs[i]) {
      FindNone(s.bufs, r.drive, page, 0);
      MissClaims(s, t);
    }
  }

  /** A miss takes the victim if there is one. */
  lemma MissClaims(s: State, t: nat)
    requires Reading(s, t) && Sized(s.bufs)
    requires Find(s.bufs, s.readers[t].drive, PageOf(s.readers[t].lba, |s.readers[t].out|), 0) == Miss
    ensures var u := Step(s, Lookup(t));
            if forall i :: 0 <= i < |s.bufs| ==> s.bufs[i].busy then u.readers == s.readers && u.bufs == s.bufs
            else exists v: nat :: Claims(s, u, t, v)
  {
    hide Victim, Find, View;
    VictimMeaning(s.bufs, 0, None);
    if Victim(s.bufs, 0, None).Some? {
      assert Claims(s, Step(s, Lookup(t)), t, Victim(s.bufs, 0, None).value);
    }
  }

  lemma {:induction false} FindNone(bufs: seq<Buf>, drive: nat, page: nat, from: nat)
    requires from <= |bufs| && forall i :: from <= i < |bufs| && Named(bufs[i], drive, page) ==> !Live(bufs[i])
    ensures Find(bufs, drive, page, from) == Miss
    decreases |bufs| - from
  {
    if from < |bufs| { FindNone(bufs, drive, page, from + 1); }
  }

  /** Reader `t` has claimed buffer `v`, which was not in flight, for its page. */
  ghost predicate Claims(s: State, u: State, t: nat, v: nat)
    requires t in s.readers && t in u.readers
  {
    && v < |s.bufs| == |u.bufs| && !s.bufs[v].busy
    && u.bufs == s.bufs[v := u.bufs[v]]
    && AtPage(u.bufs[v], s.readers[t]) && u.bufs[v].busy && !u.bufs[v].valid && !u.bufs[v].stale && u.bufs[v].got == 0
    && u.readers == s.readers[t := s.readers[t].(phase := Fetching(v))]
  }

  /** With one buffer live for a page, the scan stops at it. */
  lemma {:induction false} FindIs(bufs: seq<Buf>, drive: nat, page: nat, from: nat, i: nat)
    requires Unique(bufs) && from <= i < |bufs| && Live(bufs[i]) && Named(bufs[i], drive, page)
    ensures Find(bufs, drive, page, from) == if bufs[i].busy then InFlight else Hit(i)
    decreases |bufs| - from
  {
    if from < i { FindIs(bufs, drive, page, from + 1, i); }
  }

  /** The end of a fetch: a device error fails the read and forgets the page; a fetch a
      write marked stale is thrown away and the reader looks again; any other publishes
      the page and gives the reader its run.  Before the eighth sector it is not over. */
  lemma FetchEndExactly(s: State, t: nat, ok: bool)
    requires CacheInv(s) && t in s.readers && s.readers[t].phase.Fetching?
    ensures Sized(s.bufs) && FetchInv(s, s.readers[t])
    ensures var r := s.readers[t];
            var b := s.bufs[r.phase.buf];
            var u := Step(s, FetchEnd(t, ok));
            && u.base == s.base && u.write == s.write && |u.bufs| == |s.bufs| && u.readers.Keys == s.readers.Keys
            && var c := u.bufs[r.phase.buf];
               && u.bufs == s.bufs[r.phase.buf := c] && u.readers == s.readers[t := u.readers[t]]
               && (!ok ==> u.readers[t] == r.(phase := Failed) && !Live(c))
               && (ok && b.got == 8 && b.stale ==> u.readers[t] == r.(phase := Top) && !Live(c))
               && (ok && b.got == 8 && !b.stale ==>
                     Gained(r, u.readers[t], b.data) && c.valid && !c.busy && c.data == b.data && AtPage(c, r))
               && (ok && b.got < 8 ==> u.readers == s.readers && u.bufs == s.bufs)
  {
    hide Coherent, FetchersApart, View;
    InvSized(s);
    assert FetchInv(s, s.readers[t]) && BufInv(s.bufs[s.readers[t].phase.buf]);
  }

  /** A read starts from nothing, with the sectors asked for, unless the thread is in the
      middle of one. */
  lemma ReadStartsExactly(s: State, t: nat, drive: nat, lba: nat, nsec: nat)
    requires Sized(s.bufs) && lba < TWO_64 && nsec < TWO_32
    ensures var u := Step(s, StartRead(t, drive, lba, nsec));
            && u.base == s.base && u.write == s.write && u.bufs == s.bufs
            && u.readers == if t in s.readers && (s.readers[t].phase.Fetching? || Reading(s, t)) then s.readers
                            else s.readers[t := Reader(drive, lba, nsec, [], Top, |s.log|)]
  {
  }

  /** A sector of a fetch: the next one, as the disk has it now. */
  lemma FetchSectorExactly(s: State, t: nat)
    requires CacheInv(s) && t in s.readers && s.readers[t].phase.Fetching?
    ensures Sized(s.bufs) && FetchInv(s, s.readers[t])
    ensures var i := s.readers[t].phase.buf;
            var b := s.bufs[i];
            var u := Step(s, FetchSector(t));
            && u.base == s.base && u.write == s.write && u.readers == s.readers && |u.bufs| == |s.bufs|
            && u.bufs == s.bufs[i := u.bufs[i]]
            && (b.got == 8 ==> u.bufs == s.bufs)
            && (b.got < 8 ==>
                  && u.bufs[i].data == b.data[b.got := OnDisk(s, Addr(b.drive, b.page * 8 + b.got))]
                  && u.bufs[i] == b.(data := u.bufs[i].data, got := b.got + 1))
  {
    hide Coherent, FetchersApart, View;
    InvSized(s);
    assert FetchInv(s, s.readers[t]) && BufInv(s.bufs[s.readers[t].phase.buf]);
  }

  /** A write starts if none is in progress, and a refusal ends it with nothing changed. */
  lemma WriteStartsExactly(s: State, drive: nat, lba: nat, data: seq<Sector>, x: Addr)
    requires CacheInv(s) && lba < TWO_64 && |data| < TWO_32
    ensures Sized(s.bufs)
    ensures Step(s, StartWrite(drive, lba, data)).write
         == if s.write.None? then Some(Write(drive, lba, data, 0)) else s.write
    ensures OnDisk(Step(s, StartWrite(drive, lba, data)), x) == OnDisk(s, x)
    ensures s.write.Some? && s.write.value.done == 0 ==>
              Step(s, WriteFails).write.None? && OnDisk(Step(s, WriteFails), x) == OnDisk(s, x)
  {
    hide Coherent, FetchersApart, View, PatchAll, FetchInv, BufInv, Unique;
    InvSized(s);
  }

  /** Each sector that reaches the disk changes that sector alone. */
  lemma WriteSectorExactly(s: State, x: Addr)
    requires CacheInv(s) && s.write.Some? && s.write.value.done < |s.write.value.data|
    ensures Sized(s.bufs)
    ensures var w := s.write.value;
            var u := Step(s, WriteSector);
            && u.write == Some(w.(done := w.done + 1))
            && OnDisk(u, x) == if x == Nth(w.drive, w.lba, w.done) then w.data[w.done] else OnDisk(s, x)
  {
    hide Coherent, FetchersApart, View, PatchAll, FetchInv, BufInv, Unique, Nth, Off;
    InvSized(s);
    var w := s.write.value;
    SectorReaches(w, x);
    var u := Step(s, WriteSector);
    assert u.write == Some(w.(done := w.done + 1)) && u.base == s.base;
    assert Off(w.(done := w.done + 1), x) == Off(w, x) by { SameOffset(w, x); }
  }

  lemma SameOffset(w: Write, x: Addr)
    ensures Off(w.(done := w.done + 1), x) == Off(w, x)
  {
  }

  /** bio_write returns exactly when all its sectors are down, with the disk as they left
      it. */
  lemma WriteEndExactly(s: State, x: Addr)
    requires CacheInv(s) && s.write.Some?
    ensures Sized(s.bufs)
    ensures var u := Step(s, WriteEnd);
            && (u.write.None? <==> s.write.value.done == |s.write.value.data|)
            && OnDisk(u, x) == OnDisk(s, x)
  {
    hide Coherent, FetchersApart, View, PatchAll, FetchInv, BufInv, Unique;
    InvSized(s);
    var u := Step(s, WriteEnd);
    if s.write.value.done == |s.write.value.data| {
      assert u.base(x) == Landed(s.base, s.write.value)(x);
    }
  }

  /** Sector `done` of a write, and no other, is at offset `done`. */
  lemma SectorReaches(w: Write, x: Addr)
    requires w.done < TWO_32
    ensures CoversIn(w, x, w.done, w.done + 1) <==> x == Nth(w.drive, w.lba, w.done)
  {
    if x.lba < TWO_64 && x.drive == w.drive {
      var off := Off(w, x);
      if off == w.done {
        assert x.lba == w.lba + off + TWO_64 * ((x.lba - w.lba) / TWO_64);
        SameMod(x.lba, w.lba + w.done, -((x.lba - w.lba) / TWO_64));
      }
      if x.lba == (w.lba + w.done) % TWO_64 {
        assert x.lba - w.lba == w.done - TWO_64 * ((w.lba + w.done) / TWO_64);
        SameMod(w.done, x.lba - w.lba, -((w.lba + w.done) / TWO_64));
      }
    }
  }

  // ---- least recently used ------------------------------------------------------------------------------------------------------

  ghost predicate StampsPast(s: State) {
    forall i :: 0 <= i < |s.bufs| ==> s.bufs[i].stamp <= s.clock
  }

  lemma StampsStep(s: State, a: Action)
    requires CacheInv(s) && Sized(s.bufs) && StampsPast(s)
    ensures StampsPast(Step(s, a))
  {
    hide Coherent, FetchersApart, View, FetchInv, BufInv, Find, Victim, PatchAll;
    if a == WriteEnd && s.write.Some? {
      forall j | 0 <= j < |s.bufs|
        ensures PatchAll(s.bufs, s.write.value, 0)[j].stamp == s.bufs[j].stamp
      {
        PatchAllEffect(s.bufs, s.write.value, 0, j);
      }
    }
  }

  /** The buffer that has just served a reader is stamped later than every other. */
  ghost predicate MostRecent(bufs: seq<Buf>, i: nat) {
    i < |bufs| && forall j :: 0 <= j < |bufs| && j != i ==> bufs[j].stamp < bufs[i].stamp
  }

  /** Over every run a use is the latest use: after a hit or a page fetched, its buffer is
      the last the victim scan would take. */
  lemma {:induction false} UsesAreRecorded(disk: Disk, n: nat, acts: seq<Action>, t: nat, i: nat)
    ensures CacheInv(Init(disk, n))
    ensures var s := Run(Init(disk, n), acts);
            && Sized(s.bufs) && StampsPast(s)
            && (Reading(s, t) && i < |s.bufs| && s.bufs[i].valid && AtPage(s.bufs[i], s.readers[t]) ==>
                  MostRecent(Step(s, Lookup(t)).bufs, i))
            && (t in s.readers && s.readers[t].phase == Fetching(i) && i < |s.bufs| && s.bufs[i].got == 8 && !s.bufs[i].stale ==>
                  MostRecent(Step(s, FetchEnd(t, true)).bufs, i))
    decreases |acts|
  {
    hide Run, Step;
    InitInv(disk, n);
    if acts == [] {
      EmptyRun(disk, n);
    } else {
      var k := |acts| - 1;
      assert acts == acts[..k] + [acts[k]];
      UsesAreRecorded(disk, n, acts[..k], t, i);
      RunSnoc(Init(disk, n), acts[..k], acts[k]);
      StampsStep(Run(Init(disk, n), acts[..k]), acts[k]);
      StepKeeps(Run(Init(disk, n), acts[..k]), acts[k]);
    }
    var s := Run(Init(disk, n), acts);
    UseIsRecorded(s, t, i);
  }

  lemma UseIsRecorded(s: State, t: nat, i: nat)
    requires CacheInv(s) && StampsPast(s)
    ensures Sized(s.bufs)
    ensures Reading(s, t) && i < |s.bufs| && s.bufs[i].valid && AtPage(s.bufs[i], s.readers[t]) ==>
              MostRecent(Step(s, Lookup(t)).bufs, i)
    ensures t in s.readers && s.readers[t].phase == Fetching(i) && i < |s.bufs| && s.bufs[i].got == 8 && !s.bufs[i].stale ==>
              MostRecent(Step(s, FetchEnd(t, true)).bufs, i)
  {
    hide Coherent, FetchersApart, View, Find, Victim;
    InvSized(s);
    if Reading(s, t) && i < |s.bufs| && s.bufs[i].valid && AtPage(s.bufs[i], s.readers[t]) {
      assert BufInv(s.bufs[i]);
      FindIs(s.bufs, s.readers[t].drive, PageOf(s.readers[t].lba, |s.readers[t].out|), 0, i);
    }
    if t in s.readers { assert FetchInv(s, s.readers[t]); }
  }

  // ---- what became of each call, over runs --------------------------------------------------------------------------------------

  lemma {:induction false} RunSnoc(s: State, acts: seq<Action>, a: Action)
    requires CacheInv(s)
    ensures CacheInv(Run(s, acts)) && Sized(Run(s, acts).bufs)
    ensures Run(s, acts + [a]) == Step(Run(s, acts), a)
    decreases |acts|
  {
    hide Step, CacheInv;
    StepKeeps(s, a);
    if acts == [] {
      assert acts + [a] == [a] && [a][1..] == [];
      assert Run(Step(s, a), []) == Step(s, a);
    } else {
      assert (acts + [a])[1..] == acts[1..] + [a];
      StepKeeps(s, acts[0]);
      RunSnoc(Step(s, acts[0]), acts[1..], a);
    }
  }

  /** A reader is the one its last StartRead asked for, and has failed only if the device
      failed one of its own fetches since. */
  ghost predicate History(acts: seq<Action>, t: nat, r: Reader) {
    && r.start < |acts| && acts[r.start] == StartRead(t, r.drive, r.lba, r.nsec)
    && (r.phase.Failed? ==> exists m :: r.start < m < |acts| && acts[m] == FetchEnd(t, false))
  }

  lemma HistoryGrows(acts: seq<Action>, a: Action, t: nat, r: Reader)
    requires History(acts, t, r)
    ensures History(acts + [a], t, r)
  {
    if r.phase.Failed? {
      var m :| r.start < m < |acts| && acts[m] == FetchEnd(t, false);
      assert (acts + [a])[m] == FetchEnd(t, false);
    }
  }

  lemma HistoryStep(s: State, acts: seq<Action>, a: Action, t: nat)
    requires CacheInv(s) && Sized(s.bufs) && |s.log| == |acts| && t in Step(s, a).readers
    requires forall k :: k in s.readers ==> History(acts, k, s.readers[k])
    ensures History(acts + [a], t, Step(s, a).readers[t])
  {
    hide Coherent, FetchersApart, View, PatchAll, Unique, Find, Victim, BufInv, FetchInv, History;
    var u := Step(s, a);
    if t in s.readers && u.readers[t] == s.readers[t] {
      HistoryGrows(acts, a, t, s.readers[t]);
    } else if a.StartRead? {
      assert History(acts + [a], t, u.readers[t]) by { Began(acts, a, t, u.readers[t]); }
    } else {
      var r := s.readers[t];
      assert History(acts, t, r);
      assert u.readers[t].phase.Failed? ==> a == FetchEnd(t, false);
      Carried(acts, a, t, r, u.readers[t]);
    }
  }

  lemma Began(acts: seq<Action>, a: Action, t: nat, r: Reader)
    requires a == StartRead(t, r.drive, r.lba, r.nsec) && r.start == |acts| && r.phase.Top?
    ensures History(acts + [a], t, r)
  {
  }

  lemma Carried(acts: seq<Action>, a: Action, t: nat, r: Reader, after: Reader)
    requires History(acts, t, r)
    requires after.drive == r.drive && after.lba == r.lba && after.nsec == r.nsec && after.start == r.start
    requires after.phase.Failed? ==> a == FetchEnd(t, false)
    ensures History(acts + [a], t, after)
  {
    if after.phase.Failed? { assert (acts + [a])[|acts|] == FetchEnd(t, false); }
  }

  /** Over every run: a read is answered for the sectors it asked for, and fails only after
      the device failed a fetch of its own. */
  lemma {:induction false} ReadsFailOnlyOnErrors(disk: Disk, n: nat, acts: seq<Action>)
    ensures CacheInv(Init(disk, n))
    ensures var s := Run(Init(disk, n), acts);
            |s.log| == |acts| && forall t :: t in s.readers ==> History(acts, t, s.readers[t])
    decreases |acts|
  {
    hide History, CacheInv, Step, Run;
    InitInv(disk, n);
    if acts == [] {
      EmptyRun(disk, n);
    } else {
      var k := |acts| - 1;
      var before := acts[..k];
      ReadsFailOnlyOnErrors(disk, n, before);
      RunSnoc(Init(disk, n), before, acts[k]);
      assert acts == before + [acts[k]];
      var s := Run(Init(disk, n), before);
      StepLogs(s, acts[k]);
      forall t | t in Step(s, acts[k]).readers
        ensures History(acts, t, Step(s, acts[k]).readers[t])
      {
        HistoryStep(s, before, acts[k], t);
      }
    }
  }

  lemma EmptyRun(disk: Disk, n: nat)
    ensures CacheInv(Init(disk, n)) && Run(Init(disk, n), []) == Init(disk, n)
  {
    InitInv(disk, n);
  }

  lemma StepLogs(s: State, a: Action)
    requires Sized(s.bufs)
    ensures |Step(s, a).log| == |s.log| + 1
  {
  }

  // ---- where coherence ends ----------------------------------------------------------------------------------------------------

  /** A device write that fails after some sectors have reached the disk: bio_write
      returns the error without looking at the cache. */
  function Aborted(s: State): State {
    s.(base := x => OnDisk(s, x), write := None)
  }

  /** Buffer `i` has, or is about to publish, sector `k` as it was before the write in
      progress, which has put different bytes there. */
  ghost predicate Outdated(s: State, i: nat, k: nat)
    requires s.write.Some?
  {
    && i < |s.bufs| && k < SPP && Vouches(s.bufs[i], k)
    && var w := s.write.value;
       var a := PageSector(s.bufs[i], k);
       CoversIn(w, a, 0, Min(w.done, |w.data|)) && s.bufs[i].data[k] == s.base(a) != w.data[Off(w, a)]
  }

  /** Such a failure leaves the cache wrong exactly when some buffer still holds the old
      bytes of a sector the device took. */
  lemma AbortedWrite(s: State)
    requires CacheInv(s) && s.write.Some?
    ensures !Coherent(Aborted(s)) <==> exists i: nat, k: nat :: Outdated(s, i, k)
  {
    var u := Aborted(s);
    forall i: nat, k: nat | i < |s.bufs| && k < SPP
      ensures !Agrees(u, u.bufs[i], k) <==> Outdated(s, i, k)
    {
      assert Agrees(s, s.bufs[i], k);
      var a := PageSector(s.bufs[i], k);
      assert OnDisk(u, a) == u.base(a) == OnDisk(s, a);
    }
  }

  /** A write that went round the cache is all on the disk, whatever readers did meanwhile,
      and bio_invalidate_drive is called for it in place of making the cache agree. */
  function Invalidated(s: State): State
    requires s.write.Some?
  {
    s.(base := x => OnDisk(s, x), write := None,
       bufs := seq(|s.bufs|, i requires 0 <= i < |s.bufs| =>
                 if s.bufs[i].drive == s.write.value.drive then s.bufs[i].(valid := false) else s.bufs[i]))
  }

  /** Invalidating forgets what is cached and not what is being fetched: it leaves the
      cache wrong exactly when a fetch in flight, not marked stale, read a sector before
      the write changed it. */
  lemma BypassingWrite(s: State)
    requires CacheInv(s) && s.write.Some? && s.write.value.done == |s.write.value.data|
    ensures !Coherent(Invalidated(s)) <==> exists i: nat, k: nat :: Outdated(s, i, k) && s.bufs[i].busy
  {
    var u := Invalidated(s);
    forall i: nat, k: nat | i < |s.bufs| && k < SPP
      ensures !Agrees(u, u.bufs[i], k) <==> Outdated(s, i, k) && s.bufs[i].busy
    {
      assert BufInv(s.bufs[i]) && Agrees(s, s.bufs[i], k);
      var a := PageSector(s.bufs[i], k);
      assert PageSector(u.bufs[i], k) == a;
      assert OnDisk(u, a) == u.base(a) == OnDisk(s, a);
    }
  }

  /** A read of sector 0 that has fetched it, and a one-sector write that then put `v`
      there. */
  function Overtaken(v: Sector): seq<Action> {
    [StartRead(0, 0, 0, 1), Lookup(0), FetchSector(0), StartWrite(0, 0, [v]), WriteSector]
  }

  /** Both failures happen: after that run, neither a device error nor an invalidation
      leaves the one buffer of the cache right. */
  lemma CoherenceLost(disk: Disk, v: Sector)
    requires v != disk(Addr(0, 0))
    ensures CacheInv(Init(disk, 1))
    ensures var s := Run(Init(disk, 1), Overtaken(v));
            s.write.Some? && s.write.value.done == |s.write.value.data|
            && !Coherent(Aborted(s)) && !Coherent(Invalidated(s))
  {
    InitInv(disk, 1);
    RunKeeps(Init(disk, 1), Overtaken(v));
    var s := Run(Init(disk, 1), Overtaken(v));
    OvertakenRun(disk, v);
    assert Outdated(s, 0, 0) && s.bufs[0].busy;
    AbortedWrite(s);
    BypassingWrite(s);
  }

  /** The first three steps: the buffer is claimed and has its first sector. */
  lemma ClaimedAndFetched(disk: Disk)
    ensures var s1 := Step(Init(disk, 1), StartRead(0, 0, 0, 1));
            && Sized(s1.bufs) && Sized(Step(s1, Lookup(0)).bufs)
            && var s3 := Step(Step(s1, Lookup(0)), FetchSector(0));
               && s3.write == None && s3.base == disk
               && |s3.bufs| == 1 && Named(s3.bufs[0], 0, 0) && |s3.bufs[0].data| == SPP
               && s3.bufs[0].busy && !s3.bufs[0].stale && s3.bufs[0].got == 1 && s3.bufs[0].data[0] == disk(Addr(0, 0))
  {
    hide View;
    var s1 := Step(Init(disk, 1), StartRead(0, 0, 0, 1));
    assert s1.bufs == [Empty()];
    assert Find(s1.bufs, 0, 0, 0) == Miss;
    assert Victim(s1.bufs, 0, None) == Some(0);
    var s2 := Step(s1, Lookup(0));
    assert s2.bufs == [Empty().(busy := true, page := 0)];
    assert s2.readers[0].phase == Fetching(0);
  }

  lemma OvertakenRun(disk: Disk, v: Sector)
    ensures CacheInv(Init(disk, 1)) && ReadsInv(Init(disk, 1))
    ensures var s := Run(Init(disk, 1), Overtaken(v));
            && s.write == Some(Write(0, 0, [v], 1)) && s.base == disk
            && |s.bufs| == 1 && Named(s.bufs[0], 0, 0) && |s.bufs[0].data| == SPP
            && s.bufs[0].busy && !s.bufs[0].stale && s.bufs[0].got == 1 && s.bufs[0].data[0] == disk(Addr(0, 0))
  {
    InitInv(disk, 1);
    FiveSteps(Init(disk, 1), Overtaken(v));
    ClaimedAndFetched(disk);
    hide View, Run, CacheInv;
  }

  lemma FiveSteps(s: State, acts: seq<Action>)
    requires CacheInv(s) && |acts| == 5
    ensures Sized(s.bufs)
    ensures var s1 := Step(s, acts[0]);
            && Sized(s1.bufs) && var s2 := Step(s1, acts[1]);
            && Sized(s2.bufs) && var s3 := Step(s2, acts[2]);
            && Sized(s3.bufs) && var s4 := Step(s3, acts[3]);
            && Sized(s4.bufs) && Run(s, acts) == Step(s4, acts[4])
  {
    hide Step, CacheInv;
    StepKeeps(s, acts[0]);
    var s1 := Step(s, acts[0]);
    StepKeeps(s1, acts[1]);
    var s2 := Step(s1, acts[1]);
    StepKeeps(s2, acts[2]);
    var s3 := Step(s2, acts[2]);
    StepKeeps(s3, acts[3]);
    var s4 := Step(s3, acts[3]);
    StepKeeps(s4, acts[4]);
    assert acts[1..][1..] == acts[2..] && acts[2..][1..] == acts[3..] && acts[3..][1..] == acts[4..] && acts[4..][1..] == [];
    assert Run(s, acts) == Run(s1, acts[1..]);
    assert Run(s1, acts[1..]) == Run(s2, acts[2..]);
    assert Run(s2, acts[2..]) == Run(s3, acts[3..]);
    assert Run(s3, acts[3..]) == Run(s4, acts[4..]);
    assert Run(s4, acts[4..]) == Run(Step(s4, acts[4]), []);
  }

  // ---- the loops, in place on the buffer array ------------------------------------------------------------------------------

  /** What the victim scan promises: a free buffer if there is one, else the least
      recently used of those not in flight, and nothing only if all are in flight. */
  lemma {:induction false} VictimMeaning(bufs: seq<Buf>, from: nat, best: Option<nat>)
    requires from <= |bufs|
    requires best.Some? ==> best.value < |bufs| && !bufs[best.value].busy
    ensures var r := Victim(bufs, from, best);
            && (r.None? <==> best.None? && forall j :: from <= j < |bufs| ==> bufs[j].busy)
            && (r.Some? && bufs[r.value].valid ==>
                  && (forall j :: from <= j < |bufs| && !bufs[j].busy ==>
                        bufs[j].valid && bufs[r.value].stamp <= bufs[j].stamp)
                  && (best.Some? ==> bufs[r.value].stamp <= bufs[best.value].stamp))
    decreases |bufs| - from
  {
    if from < |bufs| {
      if bufs[from].busy {
        VictimMeaning(bufs, from + 1, best);
      } else if bufs[from].valid {
        VictimMeaning(bufs, from + 1,
          if best.None? || bufs[from].stamp < bufs[best.value].stamp then Some(from) else best);
      }
    }
  }

  class Cache {
    const bufs: array<Buf>

    ghost predicate Valid()
      reads this, bufs
    {
      Sized(bufs[..])
    }

    constructor (n: nat)
      ensures Valid() && fresh(bufs) && bufs.Length == n
      ensures forall i :: 0 <= i < n ==> bufs[i] == Empty()
    {
      bufs := new Buf[n](_ => Empty());
    }

    /** page_get's first loop. */
    method FindPage(drive: nat, page: nat) returns (r: Found)
      ensures r == Find(bufs[..], drive, page, 0)
    {
      var i := 0;
      while i < bufs.Length
        invariant 0 <= i <= bufs.Length
        invariant Find(bufs[..], drive, page, 0) == Find(bufs[..], drive, page, i)
      {
        if bufs[i].page != page || bufs[i].drive != drive {
          i := i + 1;
          continue;
        }
        if bufs[i].busy {
          return InFlight;
        }
        if bufs[i].valid {
          return Hit(i);
        }
        i := i + 1;
      }
      r := Miss;
    }

    /** page_get's second loop. */
    method ChooseVictim() returns (r: Option<nat>)
      ensures r == Victim(bufs[..], 0, None)
    {
      r := None;
      var i := 0;
      while i < bufs.Length
        invariant 0 <= i <= bufs.Length
        invariant r.Some? ==> r.value < bufs.Length && !bufs[r.value].busy
        invariant Victim(bufs[..], 0, None) == Victim(bufs[..], i, r)
      {
        if bufs[i].busy {
          i := i + 1;
          continue;
        }
        if !bufs[i].valid {
          return Some(i);
        }
        if r.None? || bufs[i].stamp < bufs[r.value].stamp {
          r := Some(i);
        }
        i := i + 1;
      }
    }

    /** The inner loop of bio_write. */
    method PatchPage(drive: nat, page: nat, within: nat, src: seq<Sector>)
      requires Valid() && within + |src| <= SPP
      modifies bufs
      ensures Valid()
      ensures bufs[..] == PatchRun(old(bufs[..]), drive, page, within, src, 0)
    {
      PatchRunSized(bufs[..], drive, page, within, src, 0);
      var i := 0;
      while i < bufs.Length
        invariant 0 <= i <= bufs.Length
        invariant bufs[..] == old(bufs[..])
        invariant PatchRun(bufs[..], drive, page, within, src, 0) == PatchRun(bufs[..], drive, page, within, src, i)
      {
        if bufs[i].page != page || bufs[i].drive != drive {
          i := i + 1;
          continue;
        }
        if bufs[i].busy {
          bufs[i] := bufs[i].(stale := true);
          return;
        }
        if !bufs[i].valid {
          i := i + 1;
          continue;
        }
        bufs[i] := bufs[i].(data := Overlay(bufs[i].data, within, src));
        return;
      }
    }

    /** The outer loop: every run of the write, page by page. */
    method MakeAgree(w: Write)
      requires Valid() && |w.data| < TWO_32
      modifies bufs
      ensures Valid()
      ensures bufs[..] == PatchAll(old(bufs[..]), w, 0)
    {
      var done := 0;
      while done < |w.data|
        invariant 0 <= done <= |w.data|
        invariant Valid()
        invariant PatchAll(bufs[..], w, done) == PatchAll(old(bufs[..]), w, 0)
      {
        var at := (w.lba + done) % TWO_64;
        var page := at / SPP;
        var within := at % SPP;
        var run := SPP - within;
        if run > |w.data| - done {
          run := |w.data| - done;
        }
        PatchPage(w.drive, page, within, w.data[done..done + run]);
        done := done + run;
      }
    }
  }
}
