/** The `/.xid` name space (fs/fs.c): which paths name a published checkpoint,
    and the decimal name a checkpoint is listed under. */
module CheckpointPath {
  import opened CStrings

  const TWO_64: nat := 0x1_0000_0000_0000_0000

  /** The largest number `view_parse` accepts.  Not UINT64_MAX: its overflow guard
      allows for a digit 9 whatever the digit turns out to be. */
  const XID_MAX: nat := 18446744073709551609

  datatype View =
    | Live                            // not under /.xid
    | Views                           // the checkpoint directory itself
    | Checkpoint(xid: nat, rest: string)
    | NoView                          // under /.xid, naming nothing

  // ---- digits ---------------------------------------------------------------

  predicate IsDigit(c: char) {
    '0' <= c <= '9'
  }

  predicate AllDigits(s: string) {
    forall i :: 0 <= i < |s| ==> IsDigit(s[i])
  }

  function DigitValue(c: char): nat
    requires IsDigit(c)
  {
    c as int - '0' as int
  }

  function DigitChar(d: nat): char
    requires d < 10
  {
    ('0' as int + d) as char
  }

  function Value(s: string): nat
    requires AllDigits(s)
  {
    if s == [] then 0 else 10 * Value(s[..|s| - 1]) + DigitValue(s[|s| - 1])
  }

  function Decimal(n: nat): string {
    if n < 10 then [DigitChar(n)] else Decimal(n / 10) + [DigitChar(n % 10)]
  }

  lemma {:induction false} DecimalReadsBack(n: nat)
    ensures AllDigits(Decimal(n)) && Decimal(n) != []
    ensures Value(Decimal(n)) == n
  {
    if n < 10 {
      assert Decimal(n)[..0] == [];
    } else {
      DecimalReadsBack(n / 10);
      assert Decimal(n)[..|Decimal(n)| - 1] == Decimal(n / 10);
    }
  }

  lemma {:induction false} DecimalLength(n: nat, k: nat)
    requires 1 <= k && n < Pow10(k)
    ensures |Decimal(n)| <= k
  {
    if n >= 10 {
      assert k > 1;
      DecimalLength(n / 10, k - 1);
    }
  }

  function Pow10(k: nat): nat {
    if k == 0 then 1 else 10 * Pow10(k - 1)
  }

  /** Appending digits never makes a number smaller. */
  lemma {:induction false} ValueGrows(s: string, t: string)
    requires AllDigits(s + t)
    ensures AllDigits(s) && Value(s) <= Value(s + t)
  {
    assert forall i :: 0 <= i < |s| ==> s[i] == (s + t)[i];
    if t == [] {
      assert s + t == s;
    } else {
      var u := t[..|t| - 1];
      assert (s + t)[..|s + t| - 1] == s + u;
      ValueGrows(s, u);
    }
  }

  // ---- spans ----------------------------------------------------------------

  /** The length of the longest prefix of digits. */
  function Digits(s: string): (n: nat)
    ensures n <= |s|
    ensures AllDigits(s[..n])
    ensures n < |s| ==> !IsDigit(s[n])
  {
    if s != [] && IsDigit(s[0]) then
      assert s[..1 + Digits(s[1..])] == [s[0]] + s[1..][..Digits(s[1..])];
      1 + Digits(s[1..])
    else 0
  }

  predicate EndsComponent(s: string) {
    s == [] || s[0] == '/'
  }

  // ---- what a path names ----------------------------------------------------

  const XID_NAME: string := ".xid"

  function ViewOf(path: string): View {
    var p := path[Slashes(path)..];
    if XID_NAME <= p && EndsComponent(p[4..]) then ViewUnder(p[4..]) else Live
  }

  /** The part of a path after its ".xid" component. */
  function ViewUnder(q: string): View {
    var body := q[Slashes(q)..];
    if body == [] then Views else ViewNumber(body)
  }

  /** The part of a path from the first character of the number on. */
  function ViewNumber(body: string): View {
    var n := Digits(body);
    if n == 0 || XID_MAX < Value(body[..n]) || !EndsComponent(body[n..]) then NoView
    else Checkpoint(Value(body[..n]), if body[n..] == [] then "/" else body[n..])
  }

  /** The grammar of a checkpoint path, stated without a parser: slashes, the
      name, slashes, a number in range, and a rest that starts a new component. */
  ghost predicate Spells(path: string, lead: string, mid: string, num: string, rest: string) {
    && path == lead + (XID_NAME + (mid + (num + rest)))
    && Slashes(lead) == |lead|
    && Slashes(mid) == |mid| && mid != []
    && AllDigits(num) && num != [] && Value(num) <= XID_MAX
    && EndsComponent(rest)
  }

  lemma SlashesThen(s: string, t: string)
    requires Slashes(s) == |s|
    requires t == [] || t[0] != '/'
    ensures Slashes(s + t) == |s|
  {
    hide Slashes;
    assert forall i :: 0 <= i < |s| ==> (s + t)[i] == s[i] == '/';
    assert t != [] ==> (s + t)[|s|] == t[0];
  }

  lemma DigitsThen(s: string, t: string)
    requires AllDigits(s)
    requires t == [] || !IsDigit(t[0])
    ensures Digits(s + t) == |s|
  {
    hide Digits;
    assert forall i :: 0 <= i < |s| ==> (s + t)[i] == s[i];
    assert forall i :: 0 <= i < Digits(s + t) ==> (s + t)[..Digits(s + t)][i] == (s + t)[i];
    assert t != [] ==> (s + t)[|s|] == t[0];
  }

  lemma NumberRead(num: string, rest: string)
    requires AllDigits(num) && num != [] && EndsComponent(rest)
    ensures ViewNumber(num + rest)
         == if Value(num) <= XID_MAX then Checkpoint(Value(num), if rest == [] then "/" else rest)
            else NoView
  {
    hide Digits, Value;
    DigitsThen(num, rest);
    assert (num + rest)[..|num|] == num;
    assert (num + rest)[|num|..] == rest;
  }

  lemma UnderRead(mid: string, body: string)
    requires Slashes(mid) == |mid| && body != [] && body[0] != '/'
    ensures ViewUnder(mid + body) == ViewNumber(body)
  {
    hide Slashes, ViewNumber;
    SlashesThen(mid, body);
    assert (mid + body)[|mid|..] == body;
  }

  lemma PathRead(lead: string, q: string)
    requires Slashes(lead) == |lead| && EndsComponent(q)
    ensures ViewOf(lead + (XID_NAME + q)) == ViewUnder(q)
  {
    hide Slashes, ViewUnder;
    SlashesThen(lead, XID_NAME + q);
    assert (lead + (XID_NAME + q))[|lead|..] == XID_NAME + q;
    assert (XID_NAME + q)[4..] == q;
  }

  /** Every spelling of a checkpoint is read as that checkpoint... */
  lemma SpelledIsRead(path: string, lead: string, mid: string, num: string, rest: string)
    requires Spells(path, lead, mid, num, rest)
    ensures ViewOf(path) == Checkpoint(Value(num), if rest == [] then "/" else rest)
  {
    hide Slashes, Digits, Value, ViewOf, ViewUnder, ViewNumber;
    assert (mid + (num + rest))[0] == mid[0];
    assert (num + rest)[0] == num[0];
    PathRead(lead, mid + (num + rest));
    UnderRead(mid, num + rest);
    NumberRead(num, rest);
  }

  /** ...and nothing else is. */
  lemma ReadIsSpelled(path: string)
    returns (lead: string, mid: string, num: string, rest: string)
    requires ViewOf(path).Checkpoint?
    ensures Spells(path, lead, mid, num, rest)
    ensures ViewOf(path) == Checkpoint(Value(num), if rest == [] then "/" else rest)
  {
    hide Slashes, Digits, Value, ViewUnder;
    lead := path[..Slashes(path)];
    var p := path[Slashes(path)..];
    var q := p[4..];
    var body;
    mid, body, num, rest := UnderIsSpelled(q);
    AllSlashes(lead);
    assert p[..4] == XID_NAME;
    assert p == XID_NAME + q;
    assert path == lead + p;
  }

  lemma UnderIsSpelled(q: string) returns (mid: string, body: string, num: string, rest: string)
    requires ViewUnder(q).Checkpoint?
    ensures q == mid + body && body == num + rest
    ensures Slashes(mid) == |mid| && AllDigits(num) && num != [] && Value(num) <= XID_MAX && EndsComponent(rest)
    ensures EndsComponent(q) ==> mid != []
    ensures ViewUnder(q) == Checkpoint(Value(num), if rest == [] then "/" else rest)
  {
    hide Slashes, Digits, Value;
    mid := q[..Slashes(q)];
    body := q[Slashes(q)..];
    num := body[..Digits(body)];
    rest := body[Digits(body)..];
    AllSlashes(mid);
  }

  lemma AllSlashes(s: string)
    requires forall i :: 0 <= i < |s| ==> s[i] == '/'
    ensures Slashes(s) == |s|
  {
  }

  /** A path names checkpoint `xid` with remainder `rest` exactly when it is
      spelled that way. */
  lemma CheckpointIffSpelled(path: string, xid: nat, rest: string)
    ensures ViewOf(path) == Checkpoint(xid, rest)
        <==> exists lead, mid, num, tail ::
               Spells(path, lead, mid, num, tail) && Value(num) == xid
               && rest == (if tail == [] then "/" else tail)
  {
    if ViewOf(path) == Checkpoint(xid, rest) {
      var lead, mid, num, tail := ReadIsSpelled(path);
    }
    forall lead, mid, num, tail | Spells(path, lead, mid, num, tail) {
      SpelledIsRead(path, lead, mid, num, tail);
    }
  }

  /** Slashes, the name as a whole component, and whatever follows. */
  ghost predicate Under(path: string, lead: string, q: string) {
    path == lead + (XID_NAME + q) && Slashes(lead) == |lead| && EndsComponent(q)
  }

  /** A path is about the live volume exactly when its first component is not the name... */
  lemma LiveIffElsewhere(path: string)
    ensures ViewOf(path) == Live <==> !exists lead, q :: Under(path, lead, q)
  {
    hide Slashes, Digits, Value;
    if ViewOf(path) != Live {
      var q := NameFirst(path);
    }
    forall lead, q | Under(path, lead, q)
      ensures ViewOf(path) != Live
    {
      PathRead(lead, q);
    }
  }

  /** ...and names the checkpoint directory exactly when nothing but slashes follows the
      name.  What is left names no checkpoint. */
  lemma DirectoryIffAlone(path: string)
    ensures ViewOf(path) == Views <==> exists lead, q :: Under(path, lead, q) && Slashes(q) == |q|
  {
    hide Slashes, Digits, Value;
    if ViewOf(path) == Views {
      var q := NameFirst(path);
    }
    forall lead, q | Under(path, lead, q) && Slashes(q) == |q|
      ensures ViewOf(path) == Views
    {
      PathRead(lead, q);
    }
  }

  lemma NameFirst(path: string) returns (q: string)
    requires ViewOf(path) != Live
    ensures Under(path, path[..Slashes(path)], q) && ViewOf(path) == ViewUnder(q)
  {
    hide Slashes, ViewUnder;
    var lead, p := path[..Slashes(path)], path[Slashes(path)..];
    q := p[4..];
    AllSlashes(lead);
    assert p[..4] == XID_NAME;
    assert p == XID_NAME + q;
    assert path == lead + p;
  }

  /** Printing a checkpoint's name and reading the path back: the identity up to
      XID_MAX, a refusal above it. */
  lemma PrintThenRead(xid: nat, rest: string)
    requires EndsComponent(rest)
    ensures ViewOf("/.xid/" + Decimal(xid) + rest)
         == if xid <= XID_MAX then Checkpoint(xid, if rest == [] then "/" else rest) else NoView
  {
    hide Slashes, Digits, Value, ViewOf, ViewUnder, ViewNumber, Decimal;
    var num := Decimal(xid);
    DecimalReadsBack(xid);
    AllSlashes("/");
    assert "/.xid/" + num + rest == "/" + (XID_NAME + ("/" + (num + rest)));
    assert (num + rest)[0] == num[0];
    PathRead("/", "/" + (num + rest));
    UnderRead("/", num + rest);
    NumberRead(num, rest);
  }

  // ---- view_parse -----------------------------------------------------------

  lemma ComparesName(path: CString, p: nat)
    requires p <= |path|
    ensures (At(path, p) == '.' && At(path, p + 1) == 'x' && At(path, p + 2) == 'i' && At(path, p + 3) == 'd')
        <==> XID_NAME <= path[p..]
  {
    var s := path[p..];
    assert |s| >= 4 ==> s[..4] == [s[0], s[1], s[2], s[3]];
  }

  method ViewParse(path: CString) returns (v: View)
    ensures v == ViewOf(path)
  {
    hide Slashes, ViewUnder;
    var p := SkipSlashes(path, 0);
    assert path[0..] == path;
    ghost var s := path[p..];
    ComparesName(path, p);
    if !(At(path, p) == '.' && At(path, p + 1) == 'x' && At(path, p + 2) == 'i' && At(path, p + 3) == 'd') {
      return Live;
    }
    p := p + 4;
    assert s[..4] == XID_NAME && s[4..] == path[p..];
    if At(path, p) != '\0' && At(path, p) != '/' {
      return Live;
    }
    v := ParseUnder(path, p);
  }

  /** What comes after the name. */
  method ParseUnder(path: CString, from: nat) returns (v: View)
    requires from <= |path|
    ensures v == ViewUnder(path[from..])
  {
    hide Slashes, ViewNumber;
    var p := SkipSlashes(path, from);
    assert path[from..][Slashes(path[from..])..] == path[p..];
    if At(path, p) == '\0' {
      return Views;
    }
    v := ParseNumber(path, p);
  }

  /** The digit loop and what follows it.  The accumulator is a 64-bit word; the
      guard before each step keeps it from wrapping. */
  method ParseNumber(path: CString, from: nat) returns (v: View)
    requires from < |path| && path[from] != '/'
    ensures v == ViewNumber(path[from..])
  {
    hide Digits, Value;
    var p := from;
    ghost var body := path[from..];
    ghost var n := Digits(body);
    if At(path, p) < '0' || At(path, p) > '9' {
      return NoView;
    }
    EmptyValue();
    var x := 0;
    while '0' <= At(path, p) <= '9'
      invariant from <= p <= from + n
      invariant x == Value(body[..p - from]) <= XID_MAX
      decreases |path| - p
    {
      DigitStep(body, p - from);
      if x > (TWO_64 - 1 - 9) / 10 {
        return NoView;
      }
      x := (x * 10 + (path[p] as int - '0' as int)) % TWO_64;
      p := p + 1;
    }
    assert p == from + n by { assert forall i :: 0 <= i < n ==> IsDigit(body[..n][i]); }
    assert body[n..] == path[p..];
    if At(path, p) != '\0' && At(path, p) != '/' {
      return NoView;
    }
    v := Checkpoint(x, if At(path, p) == '\0' then "/" else path[p..]);
  }

  lemma EmptyValue()
    ensures AllDigits([]) && Value([]) == 0
  {
  }

  /** One more digit of the number in front of `body`. */
  lemma DigitStep(body: string, k: nat)
    requires k < |body| && k <= Digits(body) && IsDigit(body[k])
    ensures k < Digits(body)
    ensures AllDigits(body[..k]) && AllDigits(body[..k + 1])
    ensures Value(body[..k + 1]) == 10 * Value(body[..k]) + DigitValue(body[k])
    ensures Value(body[..k + 1]) <= Value(body[..Digits(body)])
  {
    hide Digits, Value, AllDigits;
    var n := Digits(body);
    assert k < n by { StopsAtNonDigit(body); }
    var s := body[..n];
    assert body[..k] == s[..k] && body[..k + 1] == s[..k + 1] && body[k] == s[k];
    PrefixDigits(s, k);
    PrefixDigits(s, k + 1);
    assert s[..k + 1] == s[..k] + [s[k]];
    ValueOfNext(s[..k], s[k]);
    assert s == s[..k + 1] + s[k + 1..];
    ValueGrows(s[..k + 1], s[k + 1..]);
  }

  lemma StopsAtNonDigit(body: string)
    ensures var n := Digits(body); n <= |body| && AllDigits(body[..n]) && (n < |body| ==> !IsDigit(body[n]))
  {
    hide Digits;
  }

  lemma PrefixDigits(s: string, k: nat)
    requires AllDigits(s) && k <= |s|
    ensures AllDigits(s[..k])
  {
  }

  lemma ValueOfNext(s: string, c: char)
    requires AllDigits(s) && IsDigit(c)
    ensures AllDigits(s + [c]) && Value(s + [c]) == 10 * Value(s) + DigitValue(c)
  {
    assert (s + [c])[..|s|] == s;
  }

  // ---- view_name ------------------------------------------------------------

  function Min(a: nat, b: nat): nat {
    if a <= b then a else b
  }

  /** The last `n` characters of `name` are out and `x` is what is left to print. */
  ghost predicate Printed(name: string, x: nat, n: nat) {
    n <= |name| && if x == 0 then n == |name| else name[..|name| - n] == Decimal(x)
  }

  lemma DecimalStep(x: nat, name: string, n: nat)
    requires n < |name| && name[..|name| - n] == Decimal(x)
    ensures name[|name| - 1 - n] == DigitChar(x % 10)
    ensures Printed(name, x / 10, n + 1)
  {
    var was := Decimal(x);
    assert name[|name| - 1 - n] == was[|was| - 1];
    assert was[..|was| - 1] == name[..|name| - (n + 1)];
    if 10 <= x {
      assert was[..|was| - 1] == Decimal(x / 10);
    }
  }

  /** Digits are produced last first into a 24-byte scratch, then copied out
      reversed, cut to the caller's buffer.  No 64-bit number needs more than 20,
      so only the caller's buffer can cut the name short. */
  method ViewName(dst: array<char>, cap: nat, xid: nat)
    requires 1 <= cap <= dst.Length && xid < TWO_64
    modifies dst
    ensures HoldsString(dst, Decimal(xid)[..Min(|Decimal(xid)|, cap - 1)])
    ensures forall i :: cap <= i < dst.Length ==> dst[i] == old(dst[i])
  {
    var tmp := new char[24];
    var n := 0;
    var x := xid;
    ghost var name := Decimal(xid);
    assert |name| <= 20 by { TwentyDigits(); DecimalLength(xid, 20); }
    // The first pass of the do-while: it runs before the test.
    tmp[n] := DigitChar(x % 10);
    n, x := 1, x / 10;
    DecimalStep(xid, name, 0);
    while x != 0 && n < 24
      invariant 1 <= n <= |name|
      invariant Printed(name, x, n)
      invariant forall i :: 0 <= i < n ==> tmp[i] == name[|name| - 1 - i]
      modifies tmp
      decreases x
    {
      DecimalStep(x, name, n);
      tmp[n] := DigitChar(x % 10);
      n, x := n + 1, x / 10;
    }
    assert n == |name|;
    var i := 0;
    while i < n && i + 1 < cap
      invariant 0 <= i <= n && i < cap
      invariant forall k :: 0 <= k < i ==> dst[k] == name[k]
      invariant forall k :: cap <= k < dst.Length ==> dst[k] == old(dst[k])
      modifies dst
    {
      dst[i] := tmp[n - 1 - i];
      i := i + 1;
    }
    dst[i] := '\0';
    assert dst[..i] == name[..i];
  }

  lemma TwentyDigits()
    ensures TWO_64 <= Pow10(20)
  {
    assert Pow10(5) == 100000;
    assert Pow10(10) == 10000000000;
    assert Pow10(15) == 1000000000000000;
    assert Pow10(20) == 100000000000000000000;
  }
}
