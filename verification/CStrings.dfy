/** NUL-terminated strings, and the one loop two parsers share. */
module CStrings {

  /** A C string: the characters before the terminating NUL. */
  type CString = s: string | '\0' !in s

  /** What the C code sees at an index: the character, or the NUL after the last. */
  function At(s: CString, i: nat): (c: char)
    requires i <= |s|
    ensures i < |s| <==> c != '\0'
  {
    if i < |s| then s[i] else '\0'
  }

  /** The C string a buffer holds: everything before its first NUL. */
  ghost predicate HoldsString(dst: array<char>, s: string)
    reads dst
  {
    |s| < dst.Length && dst[..|s|] == s && dst[|s|] == '\0'
  }

  /** The first index from `i` on whose character is (`slash`) or is not a slash. */
  function Next(s: string, i: nat, slash: bool): (n: nat)
    requires i <= |s|
    ensures i <= n <= |s|
    ensures forall k :: i <= k < n ==> (s[k] == '/') != slash
    ensures n < |s| ==> (s[n] == '/') == slash
    decreases |s| - i
  {
    if i < |s| && (s[i] == '/') != slash then Next(s, i + 1, slash) else i
  }

  /** The length of the longest prefix of slashes. */
  function Slashes(s: string): (n: nat)
    ensures n <= |s|
    ensures forall i :: 0 <= i < n ==> s[i] == '/'
    ensures n < |s| ==> s[n] != '/'
  {
    Next(s, 0, false)
  }

  /** The loop over a run of slashes. */
  method SkipSlashes(path: CString, from: nat) returns (p: nat)
    requires from <= |path|
    ensures p == from + Slashes(path[from..]) <= |path|
  {
    hide Slashes;
    p := from;
    while At(path, p) == '/'
      invariant from <= p <= |path|
      invariant forall k :: from <= k < p ==> path[k] == '/'
      decreases |path| - p
    {
      p := p + 1;
    }
    ghost var s := path[from..];
    assert forall k :: 0 <= k < |s| ==> s[k] == path[from + k];
    assert p < |path| ==> s[p - from] != '/';
  }
}
