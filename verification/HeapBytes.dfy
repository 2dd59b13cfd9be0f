/** The heap's chunks as bytes (kern/kmem.c).

    A chunk is a power of two bytes.  Live, it is a 16-byte header (bucket, pages,
    magic, size), the payload, and a red zone of 0xFE to its end.  Free, it is an
    8-byte link laid over the header, and 0xDE to its end.  Multi-byte fields are
    little-endian. */
module HeapBytes {

  type byte = x: int | 0 <= x < 256

  const HDR_SIZE: nat := 16
  const LINK_SIZE: nat := 8
  const HDR_MAGIC: nat := 0x4B4D4348
  const BUCKET_LARGE: nat := 0xFFFF
  const RZ_PATTERN: byte := 0xFE
  const POISON_PATTERN: byte := 0xDE
  const NBUCKETS: nat := 8
  const PAGE_SIZE: nat := 4096
  const GIB4: nat := 0x1_0000_0000

  // ---- little-endian fields ---------------------------------------------------------

  function Pow256(n: nat): (p: nat)
    ensures p > 0
  {
    if n == 0 then 1 else 256 * Pow256(n - 1)
  }

  function Enc(x: nat, n: nat): (s: seq<byte>)
    ensures |s| == n
  {
    if n == 0 then [] else [x % 256] + Enc(x / 256, n - 1)
  }

  function Dec(s: seq<byte>): nat {
    if s == [] then 0 else s[0] + 256 * Dec(s[1..])
  }

  lemma {:induction false} DecEnc(x: nat, n: nat)
    requires x < Pow256(n)
    ensures Dec(Enc(x, n)) == x
  {
    if n > 0 {
      DecEnc(x / 256, n - 1);
      assert Enc(x, n)[1..] == Enc(x / 256, n - 1);
    }
  }

  lemma {:induction false} DecBound(s: seq<byte>)
    ensures Dec(s) < Pow256(|s|)
  {
    if s != [] { DecBound(s[1..]); }
  }

  lemma Scale(p: nat, x: nat)
    ensures 256 * (p * x) == 256 * p * x
  {
  }

  /** A field is its low bytes and its high bytes. */
  lemma {:induction false} DecSplit(s: seq<byte>, k: nat)
    requires k <= |s|
    ensures Dec(s) == Dec(s[..k]) + Pow256(k) * Dec(s[k..])
  {
    if k == 0 {
      assert s[0..] == s;
    } else {
      DecSplit(s[1..], k - 1);
      assert s[1..][..k - 1] == s[..k][1..];
      assert s[1..][k - 1..] == s[k..];
      Scale(Pow256(k - 1), Dec(s[k..]));
    }
  }

  lemma QuotientIs(x: nat, d: nat, q: nat, r: nat)
    requires d > 0 && r < d && x == q * d + r
    ensures x / d == q
  {
    var m: int := x / d - q;
    assert x == x / d * d + x % d;
    assert m * d == r - x % d;
    assert m >= 1 ==> m * d >= d;
    assert m <= -1 ==> m * d + d <= 0;
  }

  lemma Widths()
    ensures Pow256(2) == 0x1_0000 && Pow256(4) == GIB4 && Pow256(8) == GIB4 * GIB4
  {
    assert Pow256(2) == 256 * Pow256(1);
    assert Pow256(4) == 256 * Pow256(3) && Pow256(3) == 256 * Pow256(2);
    assert Pow256(6) == 256 * Pow256(5) && Pow256(5) == 256 * Pow256(4);
    assert Pow256(8) == 256 * Pow256(7) && Pow256(7) == 256 * Pow256(6);
  }

  // ---- a chunk's own bytes ---------------------------------------------------------

  function BucketSize(b: nat): (n: nat)
    requires b < NBUCKETS
    ensures HDR_SIZE <= n <= PAGE_SIZE / 2
  {
    match b
    case 0 => 16 case 1 => 32 case 2 => 64 case 3 => 128
    case 4 => 256 case 5 => 512 case 6 => 1024 case 7 => 2048
  }

  function Bucket(w: seq<byte>): nat
    requires |w| >= HDR_SIZE
  {
    Dec(w[..2])
  }

  function RunPages(w: seq<byte>): nat
    requires |w| >= HDR_SIZE
  {
    Dec(w[2..4])
  }

  function Magic(w: seq<byte>): nat
    requires |w| >= HDR_SIZE
  {
    Dec(w[4..8])
  }

  function Size(w: seq<byte>): nat
    requires |w| >= HDR_SIZE
  {
    Dec(w[8..16])
  }

  function Link(w: seq<byte>): nat
    requires |w| >= HDR_SIZE
  {
    Dec(w[..8])
  }

  /** Every byte past the payload is red zone. */
  predicate Zoned(w: seq<byte>, size: nat) {
    forall j :: HDR_SIZE + size <= j < |w| ==> w[j] == RZ_PATTERN
  }

  /** Every byte past the link is poison. */
  predicate Poisoned(w: seq<byte>) {
    forall j :: LINK_SIZE <= j < |w| ==> w[j] == POISON_PATTERN
  }

  predicate HeaderIs(w: seq<byte>, bucket: nat, size: nat) {
    |w| >= HDR_SIZE && Bucket(w) == bucket && Magic(w) == HDR_MAGIC && Size(w) == size
  }

  function Fill(n: nat, v: byte): (s: seq<byte>)
    ensures |s| == n && forall i :: 0 <= i < n ==> s[i] == v
  {
    seq(n, i requires 0 <= i => v)
  }

  /** What an allocation leaves in a chunk: header, old bytes, red zone. */
  function MakeLive(w: seq<byte>, bucket: nat, size: nat): (r: seq<byte>)
    requires HDR_SIZE + size <= |w|
    ensures |r| == |w|
    ensures Zoned(r, size)
    ensures r[HDR_SIZE..HDR_SIZE + size] == w[HDR_SIZE..HDR_SIZE + size]
  {
    Enc(bucket, 2) + Enc(0, 2) + Enc(HDR_MAGIC, 4) + Enc(size, 8)
    + w[HDR_SIZE..HDR_SIZE + size] + Fill(|w| - HDR_SIZE - size, RZ_PATTERN)
  }

  /** What a free leaves: the link, then poison. */
  function MakeFree(w: seq<byte>, link: nat): (r: seq<byte>)
    requires |w| >= HDR_SIZE
    ensures |r| == |w| && Poisoned(r)
  {
    Enc(link, 8) + Fill(|w| - LINK_SIZE, POISON_PATTERN)
  }

  lemma LiveReadsBack(w: seq<byte>, bucket: nat, size: nat)
    requires HDR_SIZE + size <= |w| && bucket < 0x1_0000 && size < GIB4 * GIB4
    ensures HeaderIs(MakeLive(w, bucket, size), bucket, size)
  {
    hide Enc, Dec, Pow256;
    var r := MakeLive(w, bucket, size);
    Widths();
    DecEnc(bucket, 2);
    DecEnc(HDR_MAGIC, 4);
    DecEnc(size, 8);
    assert r[..2] == Enc(bucket, 2);
    assert r[4..8] == Enc(HDR_MAGIC, 4);
    assert r[8..16] == Enc(size, 8);
  }

  lemma FreeReadsBack(w: seq<byte>, link: nat)
    requires |w| >= HDR_SIZE && link < GIB4 * GIB4
    ensures Link(MakeFree(w, link)) == link
  {
    hide Enc, Dec, Pow256;
    Widths();
    DecEnc(link, 8);
    assert MakeFree(w, link)[..8] == Enc(link, 8);
  }

  /** The magic's place holds the high half of a link laid over it. */
  lemma MagicIsHighHalf(w: seq<byte>)
    requires |w| >= HDR_SIZE
    ensures Magic(w) == Link(w) / GIB4
  {
    hide Dec, Pow256;
    Widths();
    DecSplit(w[..8], 4);
    DecBound(w[..8][..4]);
    assert w[..8][4..] == w[4..8];
    QuotientIs(Link(w), GIB4, Magic(w), Dec(w[..8][..4]));
  }

  // ---- memory as a whole ------------------------------------------------------------

  function At(mem: seq<byte>, a: nat, n: nat): (w: seq<byte>)
    requires a + n <= |mem|
    ensures |w| == n
  {
    mem[a..a + n]
  }

  function Splice(mem: seq<byte>, a: nat, w: seq<byte>): (r: seq<byte>)
    requires a + |w| <= |mem|
    ensures |r| == |mem|
    ensures At(r, a, |w|) == w
  {
    var r := mem[..a] + w + mem[a + |w|..];
    assert r[a..a + |w|] == w;
    r
  }

  predicate Apart(a: nat, n: nat, c: nat, m: nat) {
    a + n <= c || c + m <= a
  }

  lemma SpliceApart(mem: seq<byte>, c: nat, w: seq<byte>, a: nat, n: nat)
    requires c + |w| <= |mem| && a + n <= |mem| && Apart(a, n, c, |w|)
    ensures At(Splice(mem, c, w), a, n) == At(mem, a, n)
  {
    var r := Splice(mem, c, w);
    assert forall j :: a <= j < a + n ==> r[j] == mem[j];
  }
}
