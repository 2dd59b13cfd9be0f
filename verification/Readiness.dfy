/** The one readiness channel behind select, poll and F_SETLKW (kern/darwin.c).

    A producer makes a descriptor ready, then bumps the generation under the lock,
    then wakes every sleeper.  A waiter reads the generation, scans its descriptors
    one by one without the lock, then compares the generation and parks under the
    lock.  Any number of each run at once; an action that does not fit the current
    state changes nothing. */
module Readiness {

  /** What a producer still has to do about a change it made. */
  datatype Producer = Quiet | MustBump | MustWake

  datatype Phase =
    | Reading                // the generation is read next
    | Scanning               // `todo` is still to be looked at
    | Asleep
    | Answered(fd: nat)      // the scan found this one ready
    | Gone                   // deadline or signal

  datatype Waiter = Waiter(
    phase: Phase,
    want: set<nat>,          // the descriptors this call is about
    todo: set<nat>,          // not scanned yet since `seen` was read
    seen: nat,               // the generation read before the scan
    note: bool)              // th_wake_pending

  datatype State = State(
    gen: nat,
    ready: set<nat>,
    producers: map<nat, Producer>,
    waiters: map<nat, Waiter>)

  /** One step of a waiter's own. */
  datatype Move =
    | ReadGen
    | Scan(fd: nat)
    | ComparePark            // lock, compare, and park or go round
    | GiveUp
    | Stray                  // a wake from elsewhere, such as a signal

  datatype Action =
    | Arrive(p: nat, fd: nat)          // a producer makes `fd` ready
    | Drain(fd: nat)                   // a consumer makes it unready again
    | Bump(p: nat)
    | Wake(p: nat)
    | Call(k: nat, want: set<nat>)     // a new select, poll or F_SETLKW
    | Act(k: nat, move: Move)

  function WakeOne(w: Waiter): Waiter {
    if w.phase.Asleep? then w.(phase := Reading, note := false) else w.(note := true)
  }

  /** sched_wakeup: every sleeper on the channel; the awake get no note. */
  function WakeAll(ws: map<nat, Waiter>): map<nat, Waiter> {
    map k | k in ws :: if ws[k].phase.Asleep? then ws[k].(phase := Reading) else ws[k]
  }

  function Moved(s: State, w: Waiter, m: Move): Waiter {
    match m
    case ReadGen =>
      if w.phase.Reading? then w.(phase := Scanning, seen := s.gen, todo := w.want) else w
    case Scan(fd) =>
      if w.phase.Scanning? && fd in w.todo then
        if fd in s.ready then w.(phase := Answered(fd)) else w.(todo := w.todo - {fd})
      else w
    case ComparePark =>
      if w.phase.Scanning? && w.todo == {} then
        if s.gen != w.seen then w.(phase := Reading)
        else if w.note then w.(phase := Reading, note := false)
        else w.(phase := Asleep)
      else w
    case GiveUp => if w.phase.Scanning? && w.todo == {} then w.(phase := Gone) else w
    case Stray => WakeOne(w)
  }

  predicate Is(s: State, p: nat, duty: Producer) {
    p in s.producers && s.producers[p] == duty
  }

  function Step(s: State, a: Action): State {
    match a
    case Arrive(p, fd) =>
      if Is(s, p, Quiet) then s.(ready := s.ready + {fd}, producers := s.producers[p := MustBump]) else s
    case Drain(fd) => s.(ready := s.ready - {fd})
    case Bump(p) =>
      if Is(s, p, MustBump) then s.(gen := s.gen + 1, producers := s.producers[p := MustWake]) else s
    case Wake(p) =>
      if Is(s, p, MustWake) then s.(waiters := WakeAll(s.waiters), producers := s.producers[p := Quiet]) else s
    case Call(k, want) =>
      if k in s.waiters && (s.waiters[k].phase.Answered? || s.waiters[k].phase.Gone?) then
        s.(waiters := s.waiters[k := Waiter(Reading, want, want, 0, s.waiters[k].note)])
      else s
    case Act(k, m) =>
      if k in s.waiters then s.(waiters := s.waiters[k := Moved(s, s.waiters[k], m)]) else s
  }

  function Run(s: State, acts: seq<Action>): State
    decreases |acts|
  {
    if acts == [] then s else Run(Step(s, acts[0]), acts[1..])
  }

  /** Everyone idle, whatever is ready. */
  predicate Init(s: State) {
    && (forall p :: p in s.producers ==> s.producers[p] == Quiet)
    && (forall k :: k in s.waiters ==> s.waiters[k].phase == Gone)
  }

  // ---- the invariant ------------------------------------------------------------

  ghost predicate SomeMust(s: State, duty: Producer) {
    exists p :: Is(s, p, duty)
  }

  /** What a waiter may rely on: a descriptor it has scanned and found wanting is
      ready only if the generation has moved or is about to; and it sleeps over a
      moved generation only if a wake is about to come. */
  ghost predicate WaiterInv(s: State, w: Waiter) {
    w.phase.Scanning? || w.phase.Asleep? ==>
      && w.todo <= w.want
      && w.seen <= s.gen
      && ((w.want - w.todo) * s.ready != {} && s.gen == w.seen ==> SomeMust(s, MustBump))
      && (w.phase.Asleep? ==> w.todo == {} && (s.gen != w.seen ==> SomeMust(s, MustWake)))
  }

  ghost predicate Inv(s: State) {
    forall k :: k in s.waiters ==> WaiterInv(s, s.waiters[k])
  }

  lemma OthersUnmoved(s: State, t: State, w: Waiter)
    requires WaiterInv(s, w)
    requires t.gen == s.gen && t.ready <= s.ready
    requires t.producers == s.producers
    ensures WaiterInv(t, w)
  {
    if SomeMust(s, MustBump) {
      var p :| Is(s, p, MustBump);
      assert Is(t, p, MustBump);
    }
    if SomeMust(s, MustWake) {
      var p :| Is(s, p, MustWake);
      assert Is(t, p, MustWake);
    }
    if w.phase.Scanning? || w.phase.Asleep? {
      assert (w.want - w.todo) * t.ready <= (w.want - w.todo) * s.ready;
    }
  }

  lemma ArriveKeeps(s: State, p: nat, fd: nat)
    requires Inv(s) && Is(s, p, Quiet)
    ensures Inv(Step(s, Arrive(p, fd)))
  {
    var t := Step(s, Arrive(p, fd));
    assert Is(t, p, MustBump);
    forall k | k in t.waiters
      ensures WaiterInv(t, t.waiters[k])
    {
      var w := s.waiters[k];
      assert WaiterInv(s, w);
      if SomeMust(s, MustWake) {
        var q :| Is(s, q, MustWake);
        assert Is(t, q, MustWake);
      }
    }
  }

  lemma BumpKeeps(s: State, p: nat)
    requires Inv(s) && Is(s, p, MustBump)
    ensures Inv(Step(s, Bump(p)))
  {
    var t := Step(s, Bump(p));
    assert Is(t, p, MustWake);
    forall k | k in t.waiters
      ensures WaiterInv(t, t.waiters[k])
    {
      assert WaiterInv(s, s.waiters[k]);
    }
  }

  lemma WakeKeeps(s: State, p: nat)
    requires Inv(s) && Is(s, p, MustWake)
    ensures Inv(Step(s, Wake(p)))
  {
    var t := Step(s, Wake(p));
    forall k | k in t.waiters
      ensures WaiterInv(t, t.waiters[k])
    {
      var w := s.waiters[k];
      assert WaiterInv(s, w);
      if SomeMust(s, MustBump) {
        var q :| Is(s, q, MustBump);
        assert Is(t, q, MustBump);
      }
    }
  }

  lemma MoveKeeps(s: State, w: Waiter, m: Move)
    requires WaiterInv(s, w)
    ensures WaiterInv(s, Moved(s, w, m))
  {
    match m
    case ReadGen => assert w.want - w.want == {};
    case Scan(fd) =>
      if w.phase.Scanning? && fd in w.todo && fd !in s.ready {
        assert (w.want - (w.todo - {fd})) * s.ready <= (w.want - w.todo) * s.ready;
      }
    case _ =>
  }

  lemma UpdateKeeps(s: State, k: nat, w: Waiter)
    requires Inv(s) && WaiterInv(s, w)
    ensures Inv(s.(waiters := s.waiters[k := w]))
  {
    var t := s.(waiters := s.waiters[k := w]);
    forall j | j in t.waiters
      ensures WaiterInv(t, t.waiters[j])
    {
      OthersUnmoved(s, t, t.waiters[j]);
    }
  }

  lemma DrainKeeps(s: State, fd: nat)
    requires Inv(s)
    ensures Inv(Step(s, Drain(fd)))
  {
    var t := Step(s, Drain(fd));
    forall j | j in t.waiters
      ensures WaiterInv(t, t.waiters[j])
    {
      OthersUnmoved(s, t, t.waiters[j]);
    }
  }

  lemma StepKeeps(s: State, a: Action)
    requires Inv(s)
    ensures Inv(Step(s, a))
  {
    match a
    case Arrive(p, fd) => if Is(s, p, Quiet) { ArriveKeeps(s, p, fd); }
    case Drain(fd) => DrainKeeps(s, fd);
    case Bump(p) => if Is(s, p, MustBump) { BumpKeeps(s, p); }
    case Wake(p) => if Is(s, p, MustWake) { WakeKeeps(s, p); }
    case Call(k, want) =>
      if k in s.waiters {
        UpdateKeeps(s, k, Waiter(Reading, want, want, 0, s.waiters[k].note));
      }
    case Act(k, m) =>
      if k in s.waiters {
        MoveKeeps(s, s.waiters[k], m);
        UpdateKeeps(s, k, Moved(s, s.waiters[k], m));
      }
  }

  lemma {:induction false} RunKeeps(s: State, acts: seq<Action>)
    requires Inv(s)
    ensures Inv(Run(s, acts))
    decreases |acts|
  {
    if acts != [] {
      StepKeeps(s, acts[0]);
      RunKeeps(Step(s, acts[0]), acts[1..]);
    }
  }

  /** Over every interleaving of any number of producers and waiters: nobody sleeps
      while one of their descriptors is ready unless some producer still owes its
      bump or its wake. */
  lemma NoLostReadiness(s: State, acts: seq<Action>, k: nat)
    requires Init(s)
    ensures var t := Run(s, acts);
            k in t.waiters && t.waiters[k].phase.Asleep? && t.waiters[k].want * t.ready != {} ==>
              SomeMust(t, MustBump) || SomeMust(t, MustWake)
  {
    RunKeeps(s, acts);
    var t := Run(s, acts);
    if k in t.waiters && t.waiters[k].phase.Asleep? {
      var w := t.waiters[k];
      assert WaiterInv(t, w);
      assert w.want - w.todo == w.want;
    }
  }

  // ---- what an answer and a sleep rest on -------------------------------------------

  /** `k` looked at `fd` after step `r` and it was not ready then. */
  ghost predicate LookedAt(s: State, acts: seq<Action>, k: nat, r: nat, fd: nat) {
    exists m: nat :: r < m < |acts| && acts[m] == Act(k, Scan(fd)) && fd !in Run(s, acts[..m]).ready
  }

  ghost predicate Called(acts: seq<Action>, k: nat, want: set<nat>) {
    exists c: nat :: c < |acts| && acts[c] == Call(k, want)
  }

  /** `k` looked at `fd` at step `m`, it was ready at that very moment, and `k` has made no
      call since. */
  ghost predicate AnsweredAt(s: State, acts: seq<Action>, k: nat, fd: nat, m: nat) {
    && m < |acts| && acts[m] == Act(k, Scan(fd)) && fd in Run(s, acts[..m]).ready
    && forall j :: m < j < |acts| && acts[j].Call? ==> acts[j].k != k
  }

  /** `k` read the generation at step `r`, and has since looked at every one of `done` and
      found it not ready. */
  ghost predicate ReadAt(s: State, acts: seq<Action>, k: nat, seen: nat, done: set<nat>, r: nat) {
    && r < |acts| && acts[r] == Act(k, ReadGen) && Run(s, acts[..r]).gen == seen
    && forall fd :: fd in done ==> LookedAt(s, acts, k, r, fd)
  }

  /** `k` compared the generation with the one it had read and parked at step `p`. */
  ghost predicate ParkedAt(s: State, acts: seq<Action>, k: nat, seen: nat, p: nat) {
    p < |acts| && acts[p] == Act(k, ComparePark) && Run(s, acts[..p]).gen == seen
  }

  ghost predicate Story(s: State, acts: seq<Action>, k: nat, w: Waiter) {
    && (!w.phase.Gone? ==> Called(acts, k, w.want))
    && (w.phase.Answered? ==> w.phase.fd in w.want && exists m: nat :: AnsweredAt(s, acts, k, w.phase.fd, m))
    && (w.phase.Scanning? || w.phase.Asleep? ==>
          w.todo <= w.want && exists r: nat :: ReadAt(s, acts, k, w.seen, w.want - w.todo, r))
    && (w.phase.Asleep? ==> w.todo == {} && exists p: nat :: ParkedAt(s, acts, k, w.seen, p))
  }

  lemma {:induction false} RunSnoc(s: State, acts: seq<Action>, a: Action)
    ensures Run(s, acts + [a]) == Step(Run(s, acts), a)
    decreases |acts|
  {
    if acts == [] {
      assert acts + [a] == [a];
      assert Run(Step(s, a), []) == Step(s, a);
      assert [a][1..] == [];
    } else {
      assert (acts + [a])[1..] == acts[1..] + [a];
      RunSnoc(Step(s, acts[0]), acts[1..], a);
    }
  }

  lemma LookedAtLater(s: State, acts: seq<Action>, a: Action, k: nat, r: nat, fd: nat)
    requires LookedAt(s, acts, k, r, fd)
    ensures LookedAt(s, acts + [a], k, r, fd)
  {
    hide Run;
    var m: nat :| r < m < |acts| && acts[m] == Act(k, Scan(fd)) && fd !in Run(s, acts[..m]).ready;
    assert (acts + [a])[..m] == acts[..m];
    assert (acts + [a])[m] == acts[m];
  }

  lemma CalledLater(acts: seq<Action>, a: Action, k: nat, want: set<nat>)
    requires Called(acts, k, want)
    ensures Called(acts + [a], k, want)
  {
    var c: nat :| c < |acts| && acts[c] == Call(k, want);
    assert (acts + [a])[c] == acts[c];
  }

  lemma ReadAtLater(s: State, acts: seq<Action>, a: Action, k: nat, seen: nat, done: set<nat>, r: nat)
    requires ReadAt(s, acts, k, seen, done, r)
    ensures ReadAt(s, acts + [a], k, seen, done, r)
  {
    hide Run;
    hide LookedAt;
    assert (acts + [a])[..r] == acts[..r];
    assert (acts + [a])[r] == acts[r];
    forall fd | fd in done
      ensures LookedAt(s, acts + [a], k, r, fd)
    {
      LookedAtLater(s, acts, a, k, r, fd);
    }
  }

  /** What a waiter's past says of it stays said while others act. */
  lemma StoryLater(s: State, acts: seq<Action>, a: Action, k: nat, w: Waiter)
    requires Story(s, acts, k, w)
    requires w.phase.Answered? ==> a.Call? ==> a.k != k
    ensures Story(s, acts + [a], k, w)
  {
    hide Run, Called, ReadAt, LookedAt;
    var b := acts + [a];
    if !w.phase.Gone? { CalledLater(acts, a, k, w.want); }
    if w.phase.Answered? {
      var m: nat :| AnsweredAt(s, acts, k, w.phase.fd, m);
      assert b[..m] == acts[..m];
      assert AnsweredAt(s, b, k, w.phase.fd, m);
    }
    if w.phase.Scanning? || w.phase.Asleep? {
      var r: nat :| ReadAt(s, acts, k, w.seen, w.want - w.todo, r);
      ReadAtLater(s, acts, a, k, w.seen, w.want - w.todo, r);
    }
    if w.phase.Asleep? {
      var p: nat :| ParkedAt(s, acts, k, w.seen, p);
      assert b[..p] == acts[..p];
      assert ParkedAt(s, b, k, w.seen, p);
    }
  }

  /** A waiter's own step adds its own line to its past. */
  lemma OwnStory(s: State, acts: seq<Action>, k: nat, w: Waiter, move: Move)
    requires Story(s, acts, k, w)
    ensures Story(s, acts + [Act(k, move)], k, Moved(Run(s, acts), w, move))
  {
    hide Run, Called, LookedAt;
    var now := Run(s, acts);
    var a := Act(k, move);
    var b := acts + [a];
    var v := Moved(now, w, move);
    StoryLater(s, acts, a, k, w);
    assert b[|acts|] == a && b[..|acts|] == acts;
    match move
    case ReadGen =>
      if w.phase.Reading? {
        assert v.want - v.todo == {};
        assert ReadAt(s, b, k, v.seen, v.want - v.todo, |acts|);
      }
    case Scan(fd) =>
      if w.phase.Scanning? && fd in w.todo {
        if fd in now.ready {
          assert AnsweredAt(s, b, k, fd, |acts|);
        } else {
          var r: nat :| ReadAt(s, acts, k, w.seen, w.want - w.todo, r);
          ReadAtLater(s, acts, a, k, w.seen, w.want - w.todo, r);
          assert LookedAt(s, b, k, r, fd) by { LookNow(s, acts, k, r, fd); }
          assert v.want - v.todo == (w.want - w.todo) + {fd};
          assert ReadAt(s, b, k, v.seen, v.want - v.todo, r);
        }
      }
    case ComparePark =>
      if v.phase.Asleep? && !w.phase.Asleep? {
        assert ParkedAt(s, b, k, v.seen, |acts|);
      }
    case _ =>
  }

  lemma LookNow(s: State, acts: seq<Action>, k: nat, r: nat, fd: nat)
    requires r < |acts| && fd !in Run(s, acts).ready
    ensures LookedAt(s, acts + [Act(k, Scan(fd))], k, r, fd)
  {
    hide Run;
    var b := acts + [Act(k, Scan(fd))];
    assert b[..|acts|] == acts;
    assert b[|acts|] == Act(k, Scan(fd));
  }

  lemma StoryStep(s: State, acts: seq<Action>, a: Action, k: nat)
    requires k in Run(s, acts).waiters && Story(s, acts, k, Run(s, acts).waiters[k])
    ensures k in Step(Run(s, acts), a).waiters
    ensures Story(s, acts + [a], k, Step(Run(s, acts), a).waiters[k])
  {
    hide Run, Story, Moved;
    var now := Run(s, acts);
    var w := now.waiters[k];
    match a
    case Act(j, move) =>
      if j == k { OwnStory(s, acts, k, w, move); } else { StoryLater(s, acts, a, k, w); }
    case Call(j, want) =>
      if j != k {
        StoryLater(s, acts, a, k, w);
      } else if w.phase.Answered? || w.phase.Gone? {
        assert (acts + [a])[|acts|] == a;
        StoryOfCall(s, acts + [a], k, Step(now, a).waiters[k]);
      } else {
        StoryLater(s, acts, a, k, w);
      }
    case Wake(p) =>
      if Is(now, p, MustWake) && w.phase.Asleep? {
        StoryOfWoken(s, acts, a, k, w);
      } else {
        StoryLater(s, acts, a, k, w);
      }
    case _ => StoryLater(s, acts, a, k, w);
  }

  lemma StoryOfCall(s: State, acts: seq<Action>, k: nat, w: Waiter)
    requires acts != [] && acts[|acts| - 1] == Call(k, w.want) && w.phase.Reading?
    ensures Story(s, acts, k, w)
  {
  }

  lemma StoryOfWoken(s: State, acts: seq<Action>, a: Action, k: nat, w: Waiter)
    requires Story(s, acts, k, w) && w.phase.Asleep?
    ensures Story(s, acts + [a], k, w.(phase := Reading))
  {
    hide Run;
    CalledLater(acts, a, k, w.want);
  }

  lemma {:induction false} StoryRun(s: State, acts: seq<Action>, k: nat)
    requires Init(s) && k in s.waiters
    ensures k in Run(s, acts).waiters
    ensures Story(s, acts, k, Run(s, acts).waiters[k])
    decreases |acts|
  {
    if acts != [] {
      hide Story, Run, Step;
      var n := |acts| - 1;
      assert acts == acts[..n] + [acts[n]];
      StoryRun(s, acts[..n], k);
      StoryStep(s, acts[..n], acts[n], k);
      RunSnoc(s, acts[..n], acts[n]);
    }
  }

  /** Over every run, an answer is one of the descriptors asked about, and it was ready at
      the moment this call looked at it. */
  lemma AnswersWereReady(s: State, acts: seq<Action>, k: nat)
    requires Init(s) && k in s.waiters
    ensures k in Run(s, acts).waiters
    ensures var w := Run(s, acts).waiters[k];
            w.phase.Answered? ==>
              && Called(acts, k, w.want)
              && w.phase.fd in w.want
              && exists m: nat :: AnsweredAt(s, acts, k, w.phase.fd, m)
  {
    hide Run, AnsweredAt;
    StoryRun(s, acts, k);
  }

  /** Over every run, whoever sleeps has looked at every descriptor asked about and found
      each not ready, after reading the generation that still stood when it parked. */
  lemma SleepersLookedFirst(s: State, acts: seq<Action>, k: nat)
    requires Init(s) && k in s.waiters
    ensures k in Run(s, acts).waiters
    ensures var w := Run(s, acts).waiters[k];
            w.phase.Asleep? ==>
              && Called(acts, k, w.want)
              && (exists r: nat :: ReadAt(s, acts, k, w.seen, w.want, r))
              && (exists p: nat :: ParkedAt(s, acts, k, w.seen, p))
  {
    hide Run, ReadAt, ParkedAt;
    StoryRun(s, acts, k);
    var w := Run(s, acts).waiters[k];
    if w.phase.Asleep? { assert w.want - w.todo == w.want; }
  }

  /** A waiter's step answers exactly when the descriptor it looks at is ready, parks exactly
      when everything was looked at, the generation stands and no wake was noted, gives up
      only once everything was looked at, and touches nobody else. */
  lemma MovesExactly(s: State, k: nat, move: Move)
    requires k in s.waiters && s.waiters[k].phase.Scanning?
    ensures var u := Step(s, Act(k, move));
            var w := s.waiters[k];
            && k in u.waiters && u.gen == s.gen && u.ready == s.ready && u.producers == s.producers
            && u.waiters == s.waiters[k := u.waiters[k]]
            && (u.waiters[k].phase.Answered? <==>
                  move.Scan? && move.fd in w.todo && move.fd in s.ready)
            && (u.waiters[k].phase.Answered? ==> u.waiters[k].phase.fd == move.fd)
            && (u.waiters[k].phase.Asleep? <==>
                  move == ComparePark && w.todo == {} && s.gen == w.seen && !w.note)
            && (u.waiters[k].phase.Reading? <==>
                  move == ComparePark && w.todo == {} && (s.gen != w.seen || w.note))
            && (u.waiters[k].phase.Gone? <==> move == GiveUp && w.todo == {})
            && (move != Stray ==>
                  (u.waiters[k].note <==> w.note && !(move == ComparePark && w.todo == {} && s.gen == w.seen)))
            && u.waiters[k].todo ==
               if move.Scan? && move.fd !in s.ready then w.todo - {move.fd} else w.todo
  {
    var w := s.waiters[k];
    if move.Scan? && move.fd !in w.todo {
      assert w.todo - {move.fd} == w.todo;
    }
  }

  /** What is ready after any step: what was, but for the one drained, and the one a
      producer with nothing owing brings.  The generation moves on exactly a bump that is
      owed, and every duty is paid in order: bump, then wake. */
  lemma ProducersExactly(s: State, a: Action, fd: nat, p: nat)
    ensures var u := Step(s, a);
            && (fd in u.ready <==>
                  || (fd in s.ready && a != Drain(fd))
                  || (a.Arrive? && a.fd == fd && Is(s, a.p, Quiet)))
            && u.gen == s.gen + (if a.Bump? && Is(s, a.p, MustBump) then 1 else 0)
            && u.producers.Keys == s.producers.Keys
            && (p in s.producers ==>
                  u.producers[p] == if a == Bump(p) && Is(s, p, MustBump) then MustWake
                                    else if a == Wake(p) && Is(s, p, MustWake) then Quiet
                                    else if a.Arrive? && a.p == p && Is(s, p, Quiet) then MustBump
                                    else s.producers[p])
  {
  }

  /** Who is woken, and how: a wake that is owed gets every sleeper going and leaves no
      note; a stray one gets its sleeper going, or leaves a note with whoever is awake; a
      new call starts over with what it asks about and keeps the note. */
  lemma WakesExactly(s: State, a: Action, k: nat)
    requires k in s.waiters
    ensures var u := Step(s, a);
            var w := s.waiters[k];
            && u.waiters.Keys == s.waiters.Keys
            && (a.Wake? ==> u.waiters[k] == if Is(s, a.p, MustWake) && w.phase == Asleep then w.(phase := Reading) else w)
            && (a == Act(k, Stray) ==>
                  && u.waiters[k] == w.(phase := u.waiters[k].phase, note := u.waiters[k].note)
                  && (u.waiters[k].note <==> w.phase != Asleep)
                  && u.waiters[k].phase == if w.phase == Asleep then Reading else w.phase)
            && (a.Call? && a.k == k ==>
                  u.waiters[k] == if w.phase.Answered? || w.phase == Gone then Waiter(Reading, a.want, a.want, 0, w.note) else w)
            && ((a.Act? || a.Call?) && a.k != k ==> u.waiters[k] == w)
            && (a.Arrive? || a.Drain? || a.Bump? ==> u.waiters == s.waiters)
  {
  }

  /** A call that is to read the generation reads the one that stands and has everything to
      look at; nobody moves out of turn. */
  lemma TurnsExactly(s: State, k: nat, move: Move)
    requires k in s.waiters && !s.waiters[k].phase.Scanning? && move != Stray
    ensures var w := s.waiters[k];
            Step(s, Act(k, move)).waiters ==
            if w.phase == Reading && move == ReadGen then s.waiters[k := Waiter(Scanning, w.want, w.want, s.gen, w.note)]
            else s.waiters
  {
    assert s.waiters[k := s.waiters[k]] == s.waiters;
  }
}
