/** Lexical path resolution and the working directory (kern/darwin.c). */
module PathResolve {
  import opened CStrings

  const PATH_MAX: nat := 256

  // ---- the meaning of a path ------------------------------------------------

  /** The length of the longest prefix without a slash. */
  function Span(s: string): (n: nat)
    ensures n <= |s|
    ensures forall i :: 0 <= i < n ==> s[i] != '/'
    ensures n < |s| ==> s[n] == '/'
  {
    Next(s, 0, true)
  }

  /** The non-empty components of a path, in order. */
  function Components(s: string): seq<string>
    decreases |s|
  {
    var t := s[Slashes(s)..];
    if t == [] then [] else [t[..Span(t)]] + Components(t[Span(t)..])
  }

  /** One component applied to a directory stack; ".." at the root stays there. */
  function Enter(stack: seq<string>, c: string): seq<string> {
    if c == "." then stack
    else if c == ".." then (if stack == [] then [] else stack[..|stack| - 1])
    else stack + [c]
  }

  function Walk(stack: seq<string>, cs: seq<string>): seq<string>
    decreases |cs|
  {
    if cs == [] then stack else Walk(Enter(stack, cs[0]), cs[1..])
  }

  /** "/c1/.../ck", and "" for no components. */
  function Joined(stack: seq<string>): string {
    if stack == [] then "" else Joined(stack[..|stack| - 1]) + "/" + stack[|stack| - 1]
  }

  function Render(stack: seq<string>): string {
    if stack == [] then "/" else Joined(stack)
  }

  /** A component a normalised path may contain. */
  predicate Clean(c: string) {
    c != "" && c != "." && c != ".." && '/' !in c && '\0' !in c
  }

  predicate AllClean(stack: seq<string>) {
    forall i :: 0 <= i < |stack| ==> Clean(stack[i])
  }

  /** "/" or "/c1/.../ck" with no empty, "." or ".." component. */
  ghost predicate Normal(path: string) {
    exists stack :: AllClean(stack) && path == Render(stack)
  }

  /** Where resolution starts: the root, or the working directory. */
  function StartAt(cwd: seq<string>, path: string): seq<string> {
    if path != [] && path[0] == '/' then [] else cwd
  }

  function Resolve(cwd: seq<string>, path: string): seq<string> {
    Walk(StartAt(cwd, path), Components(path))
  }

  /** Every stack on the way is short enough to be written out with its NUL. */
  predicate Fits(stack: seq<string>, cs: seq<string>, cap: nat)
    decreases |cs|
  {
    |Render(stack)| < cap && (cs != [] ==> Fits(Enter(stack, cs[0]), cs[1..], cap))
  }

  // ---- laws -----------------------------------------------------------------

  lemma {:induction false} WalkAppend(stack: seq<string>, cs: seq<string>, ds: seq<string>)
    ensures Walk(stack, cs + ds) == Walk(Walk(stack, cs), ds)
    decreases |cs|
  {
    if cs == [] {
      assert cs + ds == ds;
    } else {
      assert (cs + ds)[0] == cs[0] && (cs + ds)[1..] == cs[1..] + ds;
      WalkAppend(Enter(stack, cs[0]), cs[1..], ds);
    }
  }

  lemma {:induction false} ComponentsPlain(s: CString)
    ensures forall i :: 0 <= i < |Components(s)| ==>
              Components(s)[i] != "" && '/' !in Components(s)[i] && '\0' !in Components(s)[i]
    decreases |s|
  {
    var t := s[Slashes(s)..];
    if t != [] {
      ComponentsPlain(t[Span(t)..]);
    }
  }

  lemma {:induction false} WalkClean(stack: seq<string>, cs: seq<string>)
    requires AllClean(stack)
    requires forall i :: 0 <= i < |cs| ==> cs[i] != "" && '/' !in cs[i] && '\0' !in cs[i]
    ensures AllClean(Walk(stack, cs))
    decreases |cs|
  {
    if cs != [] {
      WalkClean(Enter(stack, cs[0]), cs[1..]);
    }
  }

  lemma {:induction false} WalkOfClean(stack: seq<string>, cs: seq<string>)
    requires AllClean(cs)
    ensures Walk(stack, cs) == stack + cs
    decreases |cs|
  {
    if cs == [] {
      assert stack + cs == stack;
    } else {
      WalkOfClean(stack + [cs[0]], cs[1..]);
      assert stack + [cs[0]] + cs[1..] == stack + cs;
    }
  }

  lemma {:induction false} JoinedCons(c: string, stack: seq<string>)
    ensures Joined([c] + stack) == "/" + c + Joined(stack)
  {
    var all := [c] + stack;
    if stack == [] {
      assert all[..0] == [];
    } else {
      assert all[..|all| - 1] == [c] + stack[..|stack| - 1];
      JoinedCons(c, stack[..|stack| - 1]);
    }
  }

  lemma {:induction false} JoinedStarts(stack: seq<string>)
    ensures stack != [] ==> Joined(stack) != [] && Joined(stack)[0] == '/'
  {
    if |stack| > 0 {
      var c, rest := stack[0], stack[1..];
      assert stack == [c] + rest;
      JoinedCons(c, rest);
    }
  }

  /** Components of a component, a slash and more: the component comes first. */
  lemma ComponentsCons(c: string, rest: string)
    requires c != "" && '/' !in c && (rest == [] || rest[0] == '/')
    ensures Components("/" + c + rest) == [c] + Components(rest)
  {
    var s := "/" + c + rest;
    assert s[1..] == c + rest;
    assert (c + rest)[0] == c[0];
    assert Slashes(s[1..]) == 0;
    assert Slashes(s) == 1;
    var t := c + rest;
    assert forall i :: 0 <= i < |c| ==> t[i] == c[i];
    assert rest != [] ==> t[|c|] == rest[0];
    assert Span(t) == |c|;
    assert t[..|c|] == c && t[|c|..] == rest;
  }

  /** A normalised path is its own list of components. */
  lemma {:induction false} ComponentsOfRender(stack: seq<string>)
    requires AllClean(stack)
    ensures Components(Joined(stack)) == stack
    ensures Components(Render(stack)) == stack
  {
    if stack != [] {
      var c, rest := stack[0], stack[1..];
      assert stack == [c] + rest;
      ComponentsOfRender(rest);
      JoinedCons(c, rest);
      JoinedStarts(rest);
      ComponentsCons(c, Joined(rest));
    }
  }

  /** Resolution always lands on a normalised path. */
  lemma ResolveNormal(cwd: seq<string>, path: CString)
    requires AllClean(cwd)
    ensures AllClean(Resolve(cwd, path))
    ensures Normal(Render(Resolve(cwd, path)))
  {
    ComponentsPlain(path);
    WalkClean(StartAt(cwd, path), Components(path));
  }

  /** Resolving a result again, from anywhere, changes nothing. */
  lemma ResolveIdempotent(cwd: seq<string>, other: seq<string>, path: CString)
    requires AllClean(cwd)
    ensures Resolve(other, Render(Resolve(cwd, path))) == Resolve(cwd, path)
  {
    var r := Resolve(cwd, path);
    ResolveNormal(cwd, path);
    ComponentsOfRender(r);
    JoinedStarts(r);
    WalkOfClean([], r);
  }

  /** Two normalised paths that read the same are the same stack. */
  lemma RenderInjective(a: seq<string>, b: seq<string>)
    requires AllClean(a) && AllClean(b) && Render(a) == Render(b)
    ensures a == b
  {
    ComponentsOfRender(a);
    ComponentsOfRender(b);
  }

  lemma SlashesSkip(a: string, b: string)
    requires Slashes(a) == |a|
    ensures Slashes(a + "/" + b) == |a| + 1 + Slashes(b)
  {
    hide Slashes;
    var s := a + "/" + b;
    var n := |a| + 1 + Slashes(b);
    assert forall i :: 0 <= i < |a| ==> s[i] == a[i];
    assert forall i :: 0 <= i < |b| ==> s[|a| + 1 + i] == b[i];
    assert forall i {:trigger s[i]} :: 0 <= i < n ==>
      s[i] == (if i < |a| then a[i] else if i == |a| then '/' else b[i - |a| - 1]);
  }

  lemma SlashesKeep(a: string, b: string)
    requires Slashes(a) < |a|
    ensures Slashes(a + b) == Slashes(a)
  {
    hide Slashes;
    assert forall i :: 0 <= i < |a| ==> (a + b)[i] == a[i];
  }

  lemma SpanKeep(a: string, b: string)
    ensures Span(a + "/" + b) == Span(a)
  {
    hide Span;
    var s := a + "/" + b;
    assert forall i :: 0 <= i < |a| ==> s[i] == a[i];
    assert s[|a|] == '/';
  }

  lemma OnlySlashes(a: string, b: string)
    requires Slashes(a) == |a|
    ensures Components(a + "/" + b) == Components(a) + Components(b)
  {
    hide Slashes, Span;
    var s := a + "/" + b;
    SlashesSkip(a, b);
    assert s[Slashes(s)..] == b[Slashes(b)..];
    assert Components(a) == [];
  }

  lemma FirstComponent(a: string, b: string)
    requires Slashes(a) < |a|
    ensures var t := a[Slashes(a)..]; var n := Span(t);
            Components(a + "/" + b) == [t[..n]] + Components(t[n..] + "/" + b)
  {
    hide Slashes, Span;
    var t := a[Slashes(a)..];
    var n := Span(t);
    var s := a + "/" + b;
    assert s == a + ("/" + b);
    SlashesKeep(a, "/" + b);
    var u := t + "/" + b;
    assert s[Slashes(s)..] == u;
    SpanKeep(t, b);
    assert u[..n] == t[..n];
    assert u[n..] == t[n..] + "/" + b;
  }

  lemma {:induction false} ComponentsAppend(a: string, b: string)
    ensures Components(a + "/" + b) == Components(a) + Components(b)
    decreases |a|
  {
    hide Slashes, Span;
    if Slashes(a) == |a| {
      OnlySlashes(a, b);
    } else {
      FirstComponent(a, b);
      var t := a[Slashes(a)..];
      ComponentsAppend(t[Span(t)..], b);
    }
  }

  /** Resolving "a/b" is resolving `b` from where `a` leads. */
  lemma ResolveComposes(cwd: seq<string>, a: string, b: string)
    requires a != "" && (b == "" || b[0] != '/')
    ensures Resolve(cwd, a + "/" + b) == Resolve(Resolve(cwd, a), b)
  {
    ComponentsAppend(a, b);
    assert (a + "/" + b)[0] == a[0];
    WalkAppend(StartAt(cwd, a), Components(a), Components(b));
  }

  lemma OneComponent(c: string)
    requires c != "" && '/' !in c
    ensures Components(c) == [c]
  {
    hide Slashes, Span;
    assert c[0] != '/';
    assert Slashes(c) == 0 && c[0..] == c;
    assert Span(c) == |c| && c[..|c|] == c && c[|c|..] == "";
    assert Components("") == [] by { assert Slashes("") == 0; }
  }

  /** What each component does to where `a` leads: "." nothing, a name one level down, ".."
      back up from it, and ".." at the root nothing. */
  lemma ComponentsExactly(cwd: seq<string>, a: string, c: string)
    requires a != "" && Clean(c)
    ensures Resolve(cwd, a + "/.") == Resolve(cwd, a)
    ensures Resolve(cwd, a + "/" + c) == Resolve(cwd, a) + [c]
    ensures Resolve(cwd, a + "/" + c + "/..") == Resolve(cwd, a)
    ensures Resolve(cwd, "/..") == []
  {
    hide Resolve, Components;
    assert a + "/." == a + "/" + ".";
    ResolveComposes(cwd, a, ".");
    ResolveComposes(cwd, a, c);
    var b := a + "/" + c;
    assert b + "/.." == b + "/" + "..";
    ResolveComposes(cwd, b, "..");
    FromHere(Resolve(cwd, a), ".");
    FromHere(Resolve(cwd, a), c);
    FromHere(Resolve(cwd, b), "..");
    UpFromRoot(cwd);
  }

  lemma FromHere(dir: seq<string>, c: string)
    requires c != "" && '/' !in c
    ensures Resolve(dir, c) == Enter(dir, c)
  {
    hide Components;
    assert c[0] != '/';
    OneComponent(c);
    assert [c][1..] == [];
    assert Walk(Enter(dir, c), []) == Enter(dir, c);
    assert Walk(dir, [c]) == Enter(dir, c);
  }

  lemma UpFromRoot(cwd: seq<string>)
    ensures Resolve(cwd, "/..") == []
  {
    hide Components;
    assert "/.." == "" + "/" + "..";
    ComponentsAppend("", "..");
    OneComponent("..");
    NoComponents();
    assert [] + [".."] == [".."] && [".."][1..] == [];
    assert Enter([], "..") == [];
  }

  lemma NoComponents()
    ensures Components("") == []
  {
  }

  /** Where resolution starts: an absolute path never looks at the working directory, a
      name is one level below it, and the empty path is it. */
  lemma StartsExactly(cwd: seq<string>, other: seq<string>, rest: string, c: string)
    requires Clean(c)
    ensures Resolve(cwd, "/" + rest) == Resolve(other, "/" + rest)
    ensures Resolve(cwd, c) == cwd + [c]
    ensures Resolve(cwd, "") == cwd
    ensures Resolve(cwd, "/") == []
  {
    hide Components;
    FromHere(cwd, c);
    NoComponents();
    ComponentsAppend("", "");
    assert "/" == "" + "/" + "";
  }

  /** The buffer suffices exactly when every path on the way, written out, leaves room for
      its NUL. */
  lemma {:induction false} FitsExactly(stack: seq<string>, cs: seq<string>, cap: nat)
    ensures Fits(stack, cs, cap) <==> forall k :: 0 <= k <= |cs| ==> |Render(Walk(stack, cs[..k]))| < cap
    decreases |cs|
  {
    hide Render;
    assert Walk(stack, cs[..0]) == stack;
    if cs != [] {
      var next := Enter(stack, cs[0]);
      FitsExactly(next, cs[1..], cap);
      forall k | 0 <= k < |cs|
        ensures Walk(next, cs[1..][..k]) == Walk(stack, cs[..k + 1])
      {
        assert cs[..k + 1][0] == cs[0] && cs[..k + 1][1..] == cs[1..][..k];
      }
      if Fits(stack, cs, cap) {
        forall k | 0 <= k <= |cs|
          ensures |Render(Walk(stack, cs[..k]))| < cap
        {
          if k > 0 { assert Walk(next, cs[1..][..k - 1]) == Walk(stack, cs[..k - 1 + 1]); }
        }
      } else if forall k :: 0 <= k <= |cs| ==> |Render(Walk(stack, cs[..k]))| < cap {
        forall k | 0 <= k <= |cs[1..]|
          ensures |Render(Walk(next, cs[1..][..k]))| < cap
        {
          assert Walk(next, cs[1..][..k]) == Walk(stack, cs[..k + 1]);
        }
      }
    }
  }

  // ---- darwin_path_resolve --------------------------------------------------

  /** Drop the last component of the path in `out`; the root has none. */
  method Pop(out: array<char>, n: nat, ghost stack: seq<string>) returns (m: nat)
    requires AllClean(stack) && n <= out.Length && out[..n] == Render(stack)
    ensures m <= n && out[..m] == Render(Enter(stack, ".."))
  {
    m := n;
    ghost var last := if stack == [] then "" else stack[|stack| - 1];
    ghost var before := if stack == [] then "" else Joined(stack[..|stack| - 1]);
    assert stack != [] ==> Render(stack) == before + "/" + last;
    assert stack != [] ==> out[..n][|before|] == '/';
    assert stack != [] ==> forall i :: |before| < i < n ==> out[..n][i] == last[i - |before| - 1];
    while m > 1 && out[m - 1] != '/'
      invariant 1 <= m <= n
      invariant stack != [] ==> |before| + 1 <= m
      invariant stack == [] ==> m == 1
    {
      m := m - 1;
    }
    if stack != [] {
      assert m == |before| + 1;
      if stack[..|stack| - 1] != [] { JoinedStarts(stack[..|stack| - 1]); }
    }
    if m > 1 {
      m := m - 1;
    }
    assert stack != [] ==> out[..|before|] == out[..n][..|before|] == before;
  }

  /** Write one more component after the path in `out`, if it and the NUL fit. */
  method Push(out: array<char>, cap: nat, n: nat, ghost stack: seq<string>, input: CString, from: nat, to: nat)
    returns (ok: bool, m: nat)
    requires AllClean(stack) && n < cap <= out.Length && out[..n] == Render(stack)
    requires from < to <= |input| && Clean(input[from..to])
    modifies out
    ensures ok <==> |Render(stack + [input[from..to]])| < cap
    ensures ok ==> m < cap && out[..m] == Render(stack + [input[from..to]])
    ensures forall i :: cap <= i < out.Length ==> out[i] == old(out[i])
  {
    ghost var c := input[from..to];
    assert (stack + [c])[..|stack|] == stack;
    ghost var whole := Render(stack + [c]);
    assert whole == Joined(stack) + "/" + c;
    SlashLast(stack);
    m := n;
    assert out[n - 1] == out[..n][n - 1];
    if out[m - 1] != '/' {
      if m + 1 >= cap {
        return false, m;
      }
      out[m] := '/';
      m := m + 1;
    }
    assert out[..m] == Joined(stack) + "/";
    if m + (to - from) >= cap {
      return false, m;
    }
    m := CopyIn(out, m, input, from, to);
    ok := true;
  }

  method CopyIn(out: array<char>, n: nat, input: CString, from: nat, to: nat) returns (m: nat)
    requires from <= to <= |input| && n + (to - from) <= out.Length
    modifies out
    ensures m == n + (to - from) && out[..m] == old(out[..n]) + input[from..to]
    ensures forall k :: m <= k < out.Length ==> out[k] == old(out[k])
  {
    m := n;
    var i := from;
    while i < to
      invariant from <= i <= to && m == n + (i - from)
      invariant out[..m] == old(out[..n]) + input[from..i]
      invariant forall k :: m <= k < out.Length ==> out[k] == old(out[k])
    {
      out[m] := input[i];
      m, i := m + 1, i + 1;
    }
  }

  /** Only the root ends in a slash. */
  lemma SlashLast(stack: seq<string>)
    requires AllClean(stack)
    ensures Render(stack) != [] && (Render(stack)[|Render(stack)| - 1] == '/' <==> stack == [])
  {
    if stack != [] {
      var c := stack[|stack| - 1];
      assert Render(stack)[|Render(stack)| - 1] == c[|c| - 1];
    }
  }

  lemma NextComponent(input: CString, i: nat, start: nat, end: nat)
    requires i <= start <= |input| && start == i + Slashes(input[i..])
    requires start < |input| && end == start + Span(input[start..])
    ensures start < end <= |input|
    ensures Components(input[i..]) == [input[start..end]] + Components(input[end..])
    ensures input[start..end] != "" && '/' !in input[start..end] && '\0' !in input[start..end]
  {
    var s := input[i..];
    assert s[Slashes(s)..] == input[start..];
    var t := input[start..];
    assert t[..Span(t)] == input[start..end];
    assert t[Span(t)..] == input[end..];
    assert t[0] != '/';
  }

  lemma NoMoreComponents(input: CString, i: nat)
    requires i <= |input| && i + Slashes(input[i..]) == |input|
    ensures Components(input[i..]) == []
  {
  }

  /** The path resolution starts from, written into `out`. */
  method Begin(cwd: CString, ghost dir: seq<string>, input: CString, out: array<char>, cap: nat)
    returns (ok: bool, n: nat)
    requires AllClean(dir) && cwd == Render(dir) && 2 <= cap <= out.Length
    modifies out
    ensures ok <==> |Render(StartAt(dir, input))| < cap
    ensures ok ==> n < cap && out[..n] == Render(StartAt(dir, input))
    ensures forall i :: cap <= i < out.Length ==> out[i] == old(out[i])
  {
    n := 0;
    if At(input, 0) != '/' {
      SlashLast(dir);
      var i := 0;
      while At(cwd, i) != '\0'
        invariant 0 <= i == n <= |cwd| && n < cap
        invariant out[..n] == cwd[..n]
        invariant forall k :: cap <= k < out.Length ==> out[k] == old(out[k])
        decreases |cwd| - i
      {
        if n + 1 >= cap {
          return false, n;
        }
        out[n] := cwd[i];
        n, i := n + 1, i + 1;
      }
    }
    if n == 0 {
      out[n] := '/';
      n := n + 1;
    }
    ok := true;
  }

  method Resolved(cwd: CString, ghost dir: seq<string>, input: CString, out: array<char>, cap: nat)
    returns (ok: bool)
    requires AllClean(dir) && cwd == Render(dir) && cap <= out.Length
    modifies out
    ensures ok <==> 2 <= cap && Fits(StartAt(dir, input), Components(input), cap)
    ensures ok ==> HoldsString(out, Render(Resolve(dir, input)))
    ensures forall i :: cap <= i < out.Length ==> out[i] == old(out[i])
  {
    hide Slashes, Span, Components, Render, Joined;
    if cap < 2 {
      return false;
    }
    var fits, n := Begin(cwd, dir, input, out, cap);
    if !fits {
      return false;
    }
    ghost var stack := StartAt(dir, input);
    var i := 0;
    assert input[0..] == input;
    while At(input, i) != '\0'
      invariant 0 <= i <= |input|
      invariant AllClean(stack) && 0 <= n < cap && out[..n] == Render(stack)
      invariant Walk(stack, Components(input[i..])) == Resolve(dir, input)
      invariant Fits(stack, Components(input[i..]), cap) == Fits(StartAt(dir, input), Components(input), cap)
      invariant forall k :: cap <= k < out.Length ==> out[k] == old(out[k])
      decreases |input| - i
    {
      fits, i, n, stack := TakeComponent(input, i, out, cap, n, stack);
      if !fits {
        return false;
      }
    }
    NoMoreComponents(input, |input|);
    SlashLast(stack);
    RootAlone(stack);
    assert out[n - 1] == out[..n][n - 1];
    if n > 1 && out[n - 1] == '/' {
      n := n - 1;
    }
    out[n] := '\0';
    assert out[..n] == Render(stack);
    ok := true;
  }

  /** One pass of the main loop: the next component, if any, applied to the path
      in `out`. */
  method TakeComponent(input: CString, i: nat, out: array<char>, cap: nat, n: nat, ghost stack: seq<string>)
    returns (ok: bool, j: nat, m: nat, ghost after: seq<string>)
    requires i < |input| && AllClean(stack) && n < cap <= out.Length && out[..n] == Render(stack)
    modifies out
    ensures !ok ==> !Fits(stack, Components(input[i..]), cap)
    ensures ok ==> i < j <= |input| && AllClean(after) && m < cap && out[..m] == Render(after)
    ensures ok ==> Walk(after, Components(input[j..])) == Walk(stack, Components(input[i..]))
    ensures ok ==> Fits(after, Components(input[j..]), cap) == Fits(stack, Components(input[i..]), cap)
    ensures forall k :: cap <= k < out.Length ==> out[k] == old(out[k])
  {
    hide Slashes, Span, Components, Render, Joined;
    ok, m, after := true, n, stack;
    var start := SkipSlashes(input, i);
    if At(input, start) == '\0' {
      NoMoreComponents(input, i);
      NoMoreComponents(input, start);
      j := start;
      return;
    }
    var end := SkipComponent(input, start);
    NextComponent(input, i, start, end);
    ghost var c := input[start..end];
    ghost var all := Components(input[i..]);
    assert all[0] == c && all[1..] == Components(input[end..]);
    j := end;
    if end - start == 1 && input[start] == '.' {
      assert c == ".";
    } else if end - start == 2 && input[start] == '.' && input[start + 1] == '.' {
      assert c == "..";
      m := Pop(out, n, stack);
    } else {
      assert c != "." && c != "..";
      ok, m := Push(out, cap, n, stack, input, start, end);
    }
    after := Enter(stack, c);
  }

  method SkipComponent(input: CString, from: nat) returns (p: nat)
    requires from <= |input|
    ensures p == from + Span(input[from..]) <= |input|
  {
    hide Span;
    p := from;
    while At(input, p) != '\0' && At(input, p) != '/'
      invariant from <= p <= |input|
      invariant forall k :: from <= k < p ==> input[k] != '/'
      decreases |input| - p
    {
      p := p + 1;
    }
    ghost var s := input[from..];
    assert forall k :: 0 <= k < |s| ==> s[k] == input[from + k];
    assert p < |input| ==> s[p - from] == '/';
  }

  // ---- chdir ----------------------------------------------------------------

  /** One chdir(2): the path it was given and what fs_stat would say of it. */
  datatype Chdir = Chdir(path: CString, isDirectory: bool)

  /** The working directory after a chdir: unchanged unless the path resolves
      within PATH_MAX to the root or to a directory. */
  function AfterChdir(dir: seq<string>, call: Chdir): seq<string> {
    if !Fits(StartAt(dir, call.path), Components(call.path), PATH_MAX) then dir
    else
      var want := Resolve(dir, call.path);
      if want == [] || call.isDirectory then want else dir
  }

  function AfterChdirs(dir: seq<string>, calls: seq<Chdir>): seq<string>
    decreases |calls|
  {
    if calls == [] then dir else AfterChdirs(AfterChdir(dir, calls[0]), calls[1..])
  }

  lemma {:induction false} FitsAtEnd(stack: seq<string>, cs: seq<string>, cap: nat)
    requires Fits(stack, cs, cap)
    ensures |Render(Walk(stack, cs))| < cap
    decreases |cs|
  {
    if cs != [] {
      FitsAtEnd(Enter(stack, cs[0]), cs[1..], cap);
    }
  }

  /** From the root a task starts in, no run of chdir calls leaves a working
      directory that is not normalised or does not fit its buffer. */
  lemma {:induction false} WorkingDirectoryStaysNormal(dir: seq<string>, calls: seq<Chdir>)
    requires AllClean(dir) && |Render(dir)| < PATH_MAX
    ensures AllClean(AfterChdirs(dir, calls))
    ensures Normal(Render(AfterChdirs(dir, calls)))
    ensures |Render(AfterChdirs(dir, calls))| < PATH_MAX
    decreases |calls|
  {
    if calls != [] {
      var path := calls[0].path;
      ResolveNormal(dir, path);
      if Fits(StartAt(dir, path), Components(path), PATH_MAX) {
        FitsAtEnd(StartAt(dir, path), Components(path), PATH_MAX);
      }
      WorkingDirectoryStaysNormal(AfterChdir(dir, calls[0]), calls[1..]);
    }
  }

  /** A task's stored working directory. */
  class Task {
    var cwd: string
    ghost var dir: seq<string>

    ghost predicate Valid()
      reads this
    {
      AllClean(dir) && cwd == Render(dir) && '\0' !in cwd && |cwd| < PATH_MAX
    }

    constructor ()
      ensures Valid() && cwd == "/" && dir == []
    {
      cwd, dir := "/", [];
    }

    method ChangeDirectory(call: Chdir) returns (ok: bool)
      requires Valid()
      modifies this
      ensures Valid()
      ensures dir == AfterChdir(old(dir), call)
      ensures ok <==> && Fits(StartAt(old(dir), call.path), Components(call.path), PATH_MAX)
                      && (Resolve(old(dir), call.path) == [] || call.isDirectory)
      ensures !ok ==> cwd == old(cwd)
      ensures ok ==> cwd == Render(Resolve(old(dir), call.path))
    {
      var want := new char[PATH_MAX];
      var fits := Resolved(cwd, dir, call.path, want, PATH_MAX);
      if !fits {
        return false;
      }
      ghost var path := Render(Resolve(dir, call.path));
      ResolveNormal(dir, call.path);
      RenderHasNoNul(Resolve(dir, call.path));
      SlashLast(Resolve(dir, call.path));
      assert |path| >= 1 && want[..|path|] == path;
      assert want[0] == want[..|path|][0];
      RootAlone(Resolve(dir, call.path));
      if !(want[0] == '/' && want[1] == '\0') && !call.isDirectory {
        return false;
      }
      var text := Contents(want, path);
      cwd := text;
      dir := Resolve(dir, call.path);
      ok := true;
    }
  }

  /** The copy loop that stores a resolved path: up to the NUL. */
  method Contents(buf: array<char>, ghost s: string) returns (text: string)
    requires HoldsString(buf, s) && '\0' !in s
    ensures text == s
  {
    text := "";
    var i := 0;
    assert forall k :: 0 <= k < |s| ==> buf[..|s|][k] == s[k] && s[k] in s;
    while i < buf.Length && buf[i] != '\0'
      invariant 0 <= i <= |s|
      invariant text == s[..i]
    {
      text := text + [buf[i]];
      i := i + 1;
    }
  }

  lemma {:induction false} RenderHasNoNul(stack: seq<string>)
    requires AllClean(stack)
    ensures '\0' !in Render(stack) && '\0' !in Joined(stack)
  {
    if stack != [] {
      RenderHasNoNul(stack[..|stack| - 1]);
    }
  }

  /** The root is the one path of length one. */
  lemma RootAlone(stack: seq<string>)
    requires AllClean(stack)
    ensures |Render(stack)| == 1 <==> stack == []
    ensures Render(stack) != [] && Render(stack)[0] == '/'
  {
    JoinedStarts(stack);
    if stack != [] {
      assert |Joined(stack)| >= 1 + |stack[|stack| - 1]|;
    }
  }
}
