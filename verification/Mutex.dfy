/** The sleeping mutex (kern/mutex.c): an owner and a FIFO of waiters under a
    spinlock guard, no handoff, parks that may end for any reason.

    Everything between taking and dropping the guard is one step, and so is a park,
    which drops the guard and goes to sleep in one move or declines because a wake
    was noted.  Any number of threads and mutexes; an action that does not fit the
    current state changes nothing. */
module Mutex {
  import opened Options

  datatype Phase =
    | Running
    | Parked(m: nat)         // inside mutex_lock(m), asleep
    | Retaking(m: nat)       // ...the park is over, the guard is taken next
    | Waking(w: nat)         // inside mutex_unlock, guard dropped, thread_wake(w) next

  datatype Thread = Thread(
    phase: Phase,
    note: bool,              // th_wake_pending
    depth: int,              // th_mutex_depth
    held: set<nat>)          // history: locked and not yet unlocked by this thread

  datatype State = State(
    owner: map<nat, Option<nat>>,
    waiters: map<nat, seq<nat>>,
    threads: map<nat, Thread>)

  datatype Action =
    | Lock(t: nat, m: nat)
    | Retake(t: nat)         // mutex_lock again, from the end of a park
    | TryLock(t: nat, m: nat)
    | Unlock(t: nat, m: nat)
    | FinishUnlock(t: nat)   // the wake after the guard is dropped
    | Stray(t: nat)          // any other wake of `t`

  // ---- the steps ------------------------------------------------------------------

  function Without(q: seq<nat>, t: nat): seq<nat> {
    if q == [] then []
    else if q[0] == t then q[1..]
    else [q[0]] + Without(q[1..], t)
  }

  function Woken(th: Thread): Thread {
    match th.phase
    case Parked(m) => th.(phase := Retaking(m), note := false)
    case _ => th.(note := true)
  }

  /** The top of mutex_lock's loop: take a free mutex, or queue up and park. */
  function Attempt(s: State, t: nat, m: nat): State
    requires t in s.threads && m in s.owner && m in s.waiters
  {
    var th := s.threads[t];
    if s.owner[m].None? then
      s.(owner := s.owner[m := Some(t)],
         threads := s.threads[t := th.(phase := Running, depth := th.depth + 1, held := th.held + {m})])
    else
      s.(waiters := s.waiters[m := s.waiters[m] + [t]],
         threads := s.threads[t := th.(phase := if th.note then Retaking(m) else Parked(m), note := false)])
  }

  predicate CanLock(s: State, t: nat, m: nat) {
    && t in s.threads && s.threads[t].phase.Running?
    && m in s.owner && m in s.waiters && s.owner[m] != Some(t)
  }

  predicate CanRetake(s: State, t: nat) {
    && t in s.threads && s.threads[t].phase.Retaking?
    && s.threads[t].phase.m in s.owner && s.threads[t].phase.m in s.waiters
  }

  predicate CanUnlock(s: State, t: nat, m: nat) {
    && t in s.threads && s.threads[t].phase.Running?
    && m in s.owner && m in s.waiters && s.owner[m] == Some(t)
  }

  function Detached(s: State, t: nat): State
    requires CanRetake(s, t)
  {
    var m := s.threads[t].phase.m;
    s.(waiters := s.waiters[m := Without(s.waiters[m], t)])
  }

  function Released(s: State, t: nat, m: nat): State
    requires CanUnlock(s, t, m)
  {
    var th := s.threads[t];
    var q := s.waiters[m];
    s.(owner := s.owner[m := None],
       waiters := s.waiters[m := if q == [] then [] else q[1..]],
       threads := s.threads[t := th.(phase := if q == [] then Running else Waking(q[0]),
                                     depth := th.depth - 1, held := th.held - {m})])
  }

  function Step(s: State, a: Action): State {
    match a
    case Lock(t, m) => if CanLock(s, t, m) then Attempt(s, t, m) else s
    case Retake(t) => if CanRetake(s, t) then Attempt(Detached(s, t), t, s.threads[t].phase.m) else s
    case TryLock(t, m) => if CanLock(s, t, m) && s.owner[m].None? then Attempt(s, t, m) else s
    case Unlock(t, m) => if CanUnlock(s, t, m) then Released(s, t, m) else s
    case FinishUnlock(t) =>
      if t in s.threads && s.threads[t].phase.Waking? && s.threads[t].phase.w in s.threads then
        var w := s.threads[t].phase.w;
        var back := s.threads[t := s.threads[t].(phase := Running)];
        s.(threads := back[w := Woken(back[w])])
      else s
    case Stray(t) => if t in s.threads then s.(threads := s.threads[t := Woken(s.threads[t])]) else s
  }

  function Run(s: State, acts: seq<Action>): State
    decreases |acts|
  {
    if acts == [] then s else Run(Step(s, acts[0]), acts[1..])
  }

  function Init(ts: set<nat>, ms: set<nat>): State {
    State(map m | m in ms :: None, map m | m in ms :: [], map t | t in ts :: Thread(Running, false, 0, {}))
  }

  // ---- the invariant ---------------------------------------------------------------

  ghost predicate Distinct(q: seq<nat>) {
    forall i, j :: 0 <= i < j < |q| ==> q[i] != q[j]
  }

  /** `t` is inside mutex_lock(m). */
  ghost predicate Inside(s: State, t: nat, m: nat) {
    t in s.threads && (s.threads[t].phase == Parked(m) || s.threads[t].phase == Retaking(m))
  }

  ghost predicate InPhase(s: State, t: nat, p: Phase) {
    t in s.threads && s.threads[t].phase == p
  }

  /** Some unlocker has taken `t` off a list and not yet woken it. */
  ghost predicate WakeOwed(s: State, t: nat) {
    exists u :: InPhase(s, u, Waking(t))
  }

  /** `t` will come back for the guard of `m`: its park is over, or it is off the
      list with its wake on the way. */
  ghost predicate Due(s: State, t: nat, m: nat) {
    InPhase(s, t, Retaking(m)) || (InPhase(s, t, Parked(m)) && m in s.waiters && t !in s.waiters[m])
  }

  ghost predicate OwnerInv(s: State) {
    && (forall m :: m in s.owner && s.owner[m].Some? ==>
          s.owner[m].value in s.threads && m in s.threads[s.owner[m].value].held)
    && (forall t :: t in s.threads ==>
          (forall m :: m in s.threads[t].held ==> m in s.owner && s.owner[m] == Some(t)))
    && (forall t :: t in s.threads ==> s.threads[t].depth == |s.threads[t].held|)
  }

  ghost predicate QueueInv(s: State) {
    && s.owner.Keys == s.waiters.Keys
    && (forall m :: m in s.waiters ==> Distinct(s.waiters[m]))
    && (forall m, t :: m in s.waiters && t in s.waiters[m] ==> Inside(s, t, m))
    && (forall t :: t in s.threads && (s.threads[t].phase.Parked? || s.threads[t].phase.Retaking?) ==>
          s.threads[t].phase.m in s.waiters)
  }

  ghost predicate WakeInv(s: State) {
    && (forall t :: t in s.threads && s.threads[t].phase.Waking? ==> s.threads[t].phase.w in s.threads)
    && (forall t :: t in s.threads && s.threads[t].phase.Parked? ==> !s.threads[t].note)
    && (forall t, m :: InPhase(s, t, Parked(m)) && m in s.waiters && t !in s.waiters[m] ==> WakeOwed(s, t))
  }

  ghost predicate NotStranded(s: State, m: nat) {
    m in s.owner && m in s.waiters && s.owner[m].None? && s.waiters[m] != [] ==> exists t :: Due(s, t, m)
  }

  ghost predicate Inv(s: State) {
    && OwnerInv(s) && QueueInv(s) && WakeInv(s)
    && (forall m :: m in s.owner ==> NotStranded(s, m))
  }

  // ---- every step keeps it -----------------------------------------------------------

  lemma {:induction false} WithoutMembers(q: seq<nat>, t: nat)
    requires Distinct(q)
    ensures Distinct(Without(q, t))
    ensures forall x :: x in Without(q, t) <==> x in q && x != t
  {
    if q != [] {
      assert q == [q[0]] + q[1..];
      assert forall i, j :: 0 <= i < j < |q[1..]| ==> q[1..][i] == q[i + 1] && q[1..][j] == q[j + 1];
      WithoutMembers(q[1..], t);
      assert q[0] !in q[1..];
    }
  }

  lemma DetachKeeps(s: State, t: nat)
    requires QueueInv(s) && CanRetake(s, t)
    ensures QueueInv(Detached(s, t))
    ensures forall k :: k in s.waiters ==> t !in Detached(s, t).waiters[k]
    ensures forall k, x :: k in s.waiters && x != t ==> (x in Detached(s, t).waiters[k] <==> x in s.waiters[k])
  {
    var m := s.threads[t].phase.m;
    WithoutMembers(s.waiters[m], t);
    forall k | k in s.waiters && k != m
      ensures t !in s.waiters[k]
    {
      assert t in s.waiters[k] ==> Inside(s, t, k);
    }
  }

  /** Nobody but a thread inside a lock call is on a list. */
  ghost predicate Unlisted(s: State, t: nat) {
    forall k :: k in s.waiters ==> t !in s.waiters[k]
  }

  lemma OutsideIsUnlisted(s: State, t: nat)
    requires QueueInv(s) && t in s.threads && !s.threads[t].phase.Parked? && !s.threads[t].phase.Retaking?
    ensures Unlisted(s, t)
  {
    forall k | k in s.waiters
      ensures t !in s.waiters[k]
    {
      assert t in s.waiters[k] ==> Inside(s, t, k);
    }
  }

  lemma TakeKeepsOwner(s: State, t: nat, m: nat)
    requires OwnerInv(s) && t in s.threads && m in s.owner && m in s.waiters
    ensures OwnerInv(Attempt(s, t, m))
  {
    if s.owner[m].None? {
      assert m !in s.threads[t].held;
    }
  }

  lemma ListedStay(s: State, u: State, t: nat)
    requires QueueInv(s) && Unlisted(s, t)
    requires u.threads.Keys == s.threads.Keys
    requires forall x :: x in s.threads && x != t ==> u.threads[x].phase == s.threads[x].phase
    ensures forall k, x :: k in s.waiters && x in s.waiters[k] ==> Inside(u, x, k)
  {
    forall k, x | k in s.waiters && x in s.waiters[k]
      ensures Inside(u, x, k)
    {
      assert Inside(s, x, k);
    }
  }

  lemma AttemptKeepsQueue(s: State, t: nat, m: nat)
    requires QueueInv(s) && t in s.threads && m in s.owner && Unlisted(s, t)
    ensures QueueInv(Attempt(s, t, m))
  {
    var u := Attempt(s, t, m);
    ListedStay(s, u, t);
  }

  lemma ReleaseKeepsOwner(s: State, t: nat, m: nat)
    requires OwnerInv(s) && CanUnlock(s, t, m)
    ensures OwnerInv(Released(s, t, m))
  {
  }

  lemma ReleaseKeepsQueue(s: State, t: nat, m: nat)
    requires QueueInv(s) && CanUnlock(s, t, m)
    ensures QueueInv(Released(s, t, m))
  {
    var u := Released(s, t, m);
    OutsideIsUnlisted(s, t);
    ListedStay(s, u, t);
    var q := s.waiters[m];
    assert q != [] ==> forall x :: x in q[1..] ==> x in q;
  }

  // ---- wakes on their way ------------------------------------------------------------

  /** The third part of WakeInv carries over to a state where the same threads wait
      off-list and the unlockers about to wake them are still at it. */
  lemma OwedStays(s: State, u: State, t: nat, x: nat)
    requires WakeOwed(s, x)
    requires forall v :: v != t && InPhase(s, v, Waking(x)) ==> InPhase(u, v, Waking(x))
    requires t in s.threads ==> s.threads[t].phase != Waking(x)
    ensures WakeOwed(u, x)
  {
    var v :| InPhase(s, v, Waking(x));
    assert InPhase(u, v, Waking(x));
  }

  lemma AttemptKeepsWake(s: State, t: nat, m: nat)
    requires QueueInv(s) && WakeInv(s) && Unlisted(s, t)
    requires t in s.threads && m in s.owner && !s.threads[t].phase.Waking?
    ensures WakeInv(Attempt(s, t, m))
  {
    var u := Attempt(s, t, m);
    assert s.owner[m].Some? ==> u.waiters[m][|s.waiters[m]|] == t;
    forall x, k | InPhase(u, x, Parked(k)) && k in u.waiters && x !in u.waiters[k]
      ensures WakeOwed(u, x)
    {
      assert x != t;
      assert InPhase(s, x, Parked(k)) && x !in s.waiters[k];
      OwedStays(s, u, t, x);
    }
  }

  lemma AttemptKeepsDue(s: State, t: nat, m: nat, k: nat)
    requires QueueInv(s) && t in s.threads && m in s.owner && k in s.owner && NotStranded(s, k)
    requires s.threads[t].phase.Running? || s.threads[t].phase == Retaking(m)
    ensures NotStranded(Attempt(s, t, m), k)
  {
    var u := Attempt(s, t, m);
    if k != m && s.owner[k].None? && s.waiters[k] != [] {
      var x :| Due(s, x, k);
      assert Due(u, x, k);
    }
  }

  lemma AttemptKeeps(s: State, t: nat, m: nat)
    requires Inv(s) && t in s.threads && m in s.owner && Unlisted(s, t)
    requires s.threads[t].phase.Running? || s.threads[t].phase == Retaking(m)
    ensures Inv(Attempt(s, t, m))
  {
    TakeKeepsOwner(s, t, m);
    AttemptKeepsQueue(s, t, m);
    AttemptKeepsWake(s, t, m);
    forall k | k in s.owner
      ensures NotStranded(Attempt(s, t, m), k)
    {
      AttemptKeepsDue(s, t, m, k);
    }
  }

  lemma DetachedKeepsWake(s: State, t: nat)
    requires QueueInv(s) && WakeInv(s) && CanRetake(s, t)
    ensures WakeInv(Detached(s, t))
  {
    var u := Detached(s, t);
    DetachKeeps(s, t);
    forall x, k | InPhase(u, x, Parked(k)) && k in u.waiters && x !in u.waiters[k]
      ensures WakeOwed(u, x)
    {
      assert x != t && InPhase(s, x, Parked(k)) && x !in s.waiters[k];
      OwedStays(s, u, t, x);
    }
  }

  lemma DetachedKeepsDue(s: State, t: nat, k: nat)
    requires QueueInv(s) && CanRetake(s, t) && k in s.owner && NotStranded(s, k)
    ensures NotStranded(Detached(s, t), k)
  {
    var u := Detached(s, t);
    DetachKeeps(s, t);
    if u.owner[k].None? && u.waiters[k] != [] {
      if k == s.threads[t].phase.m {
        assert Due(u, t, k);
      } else {
        var x :| Due(s, x, k);
        assert Due(u, x, k);
      }
    }
  }

  lemma DetachedKeepsInv(s: State, t: nat)
    requires Inv(s) && CanRetake(s, t)
    ensures Inv(Detached(s, t)) && Unlisted(Detached(s, t), t)
  {
    DetachKeeps(s, t);
    DetachedKeepsWake(s, t);
    forall k | k in s.owner
      ensures NotStranded(Detached(s, t), k)
    {
      DetachedKeepsDue(s, t, k);
    }
  }

  lemma ReleaseKeepsWake(s: State, t: nat, m: nat)
    requires QueueInv(s) && WakeInv(s) && CanUnlock(s, t, m)
    ensures WakeInv(Released(s, t, m))
  {
    var u := Released(s, t, m);
    var q := s.waiters[m];
    if q != [] {
      assert q[0] in q;
      assert Inside(s, q[0], m);
      assert q == [q[0]] + q[1..];
    }
    forall x, k | InPhase(u, x, Parked(k)) && k in u.waiters && x !in u.waiters[k]
      ensures WakeOwed(u, x)
    {
      if k == m && x in q {
        assert x == q[0];
        assert InPhase(u, t, Waking(x));
      } else {
        assert InPhase(s, x, Parked(k)) && x !in s.waiters[k];
        OwedStays(s, u, t, x);
      }
    }
  }

  lemma ReleaseKeepsDue(s: State, t: nat, m: nat, k: nat)
    requires QueueInv(s) && CanUnlock(s, t, m) && k in s.owner && NotStranded(s, k)
    ensures NotStranded(Released(s, t, m), k)
  {
    var u := Released(s, t, m);
    var q := s.waiters[m];
    if k == m {
      if u.waiters[m] != [] {
        assert q[0] in q;
        assert Inside(s, q[0], m);
        assert q[0] !in q[1..];
        assert Due(u, q[0], m);
      }
    } else if s.owner[k].None? && s.waiters[k] != [] {
      var x :| Due(s, x, k);
      assert Due(u, x, k);
    }
  }

  lemma ReleaseKeeps(s: State, t: nat, m: nat)
    requires Inv(s) && CanUnlock(s, t, m)
    ensures Inv(Released(s, t, m))
  {
    ReleaseKeepsOwner(s, t, m);
    ReleaseKeepsQueue(s, t, m);
    ReleaseKeepsWake(s, t, m);
    forall k | k in s.owner
      ensures NotStranded(Released(s, t, m), k)
    {
      ReleaseKeepsDue(s, t, m, k);
    }
  }

  /** Waking threads, or returning from an unlock, moves nobody off a list or out
      of a lock call. */
  ghost predicate OnlyWoken(s: State, u: State) {
    && u == s.(threads := u.threads) && u.threads.Keys == s.threads.Keys
    && (forall x :: x in s.threads ==> KeepsPlace(s.threads[x], u.threads[x]))
  }

  predicate KeepsPlace(a: Thread, b: Thread) {
    && b.depth == a.depth && b.held == a.held
    && match a.phase
       case Parked(m) => b.phase == Parked(m) || b.phase == Retaking(m)
       case Retaking(m) => b.phase == Retaking(m)
       case _ => b.phase.Running? || b.phase.Waking?
  }

  lemma FinishOnlyWakes(s: State, t: nat)
    ensures OnlyWoken(s, Step(s, FinishUnlock(t)))
  {
  }

  lemma StrayOnlyWakes(s: State, t: nat)
    ensures OnlyWoken(s, Step(s, Stray(t)))
  {
  }

  lemma WakingKeeps(s: State, u: State)
    requires OwnerInv(s) && QueueInv(s) && OnlyWoken(s, u)
    ensures OwnerInv(u) && QueueInv(u)
    ensures forall k :: k in s.owner && NotStranded(s, k) ==> NotStranded(u, k)
  {
    forall x, k | k in u.waiters && x in u.waiters[k]
      ensures Inside(u, x, k)
    {
      assert Inside(s, x, k);
    }
    forall k | k in s.owner && NotStranded(s, k)
      ensures NotStranded(u, k)
    {
      if s.owner[k].None? && s.waiters[k] != [] {
        var x :| Due(s, x, k);
        assert Due(u, x, k);
      }
    }
  }

  lemma StrayKeepsWake(s: State, t: nat)
    requires WakeInv(s) && t in s.threads
    ensures WakeInv(Step(s, Stray(t)))
  {
    var u := Step(s, Stray(t));
    forall x, k | InPhase(u, x, Parked(k)) && k in u.waiters && x !in u.waiters[k]
      ensures WakeOwed(u, x)
    {
      assert InPhase(s, x, Parked(k)) && x != t && x !in s.waiters[k];
      assert WakeOwed(s, x);
      var v :| InPhase(s, v, Waking(x));
      assert InPhase(u, v, Waking(x));
    }
  }

  lemma StrayKeeps(s: State, t: nat)
    requires Inv(s) && t in s.threads
    ensures Inv(Step(s, Stray(t)))
  {
    hide WakeInv, NotStranded, OwnerInv, QueueInv, OnlyWoken;
    StrayOnlyWakes(s, t);
    WakingKeeps(s, Step(s, Stray(t)));
    StrayKeepsWake(s, t);
  }

  lemma FinishKeepsWake(s: State, t: nat)
    requires WakeInv(s) && t in s.threads && s.threads[t].phase.Waking?
    ensures WakeInv(Step(s, FinishUnlock(t)))
  {
    var u := Step(s, FinishUnlock(t));
    var w := s.threads[t].phase.w;
    forall x, k | InPhase(u, x, Parked(k)) && k in u.waiters && x !in u.waiters[k]
      ensures WakeOwed(u, x)
    {
      assert InPhase(s, x, Parked(k)) && x != w;
      OwedStays(s, u, t, x);
    }
  }

  lemma FinishKeeps(s: State, t: nat)
    requires Inv(s) && t in s.threads && s.threads[t].phase.Waking?
    ensures Inv(Step(s, FinishUnlock(t)))
  {
    FinishKeepsWake(s, t);
    hide WakeInv, NotStranded, OwnerInv, QueueInv, OnlyWoken;
    FinishOnlyWakes(s, t);
    WakingKeeps(s, Step(s, FinishUnlock(t)));
  }

  lemma StepKeeps(s: State, a: Action)
    requires Inv(s)
    ensures Inv(Step(s, a))
  {
    hide Inv;
    match a
    case Lock(t, m) => if CanLock(s, t, m) { LockKeeps(s, t, m); }
    case TryLock(t, m) => if CanLock(s, t, m) { LockKeeps(s, t, m); }
    case Retake(t) => if CanRetake(s, t) { RetakeKeeps(s, t); }
    case Unlock(t, m) => if CanUnlock(s, t, m) { ReleaseKeeps(s, t, m); }
    case FinishUnlock(t) => if t in s.threads && s.threads[t].phase.Waking? { FinishKeeps(s, t); }
    case Stray(t) => if t in s.threads { StrayKeeps(s, t); }
  }

  lemma LockKeeps(s: State, t: nat, m: nat)
    requires Inv(s) && CanLock(s, t, m)
    ensures Inv(Attempt(s, t, m))
  {
    OutsideIsUnlisted(s, t);
    AttemptKeeps(s, t, m);
  }

  lemma RetakeKeeps(s: State, t: nat)
    requires Inv(s) && CanRetake(s, t)
    ensures Inv(Step(s, Retake(t)))
  {
    DetachedKeepsInv(s, t);
    AttemptKeeps(Detached(s, t), t, s.threads[t].phase.m);
  }

  lemma {:induction false} RunKeeps(s: State, acts: seq<Action>)
    requires Inv(s)
    ensures Inv(Run(s, acts))
    decreases |acts|
  {
    if acts != [] {
      StepKeeps(s, acts[0]);
      RunKeeps(Step(s, acts[0]), acts[1..]);
    }
  }

  lemma InitInv(ts: set<nat>, ms: set<nat>)
    ensures Inv(Init(ts, ms))
  {
  }

  // ---- what every run guarantees -------------------------------------------------------

  /** Two threads never both hold a mutex, and the held-mutex count the kill checks
      read is exactly the number held. */
  lemma MutualExclusion(ts: set<nat>, ms: set<nat>, acts: seq<Action>, a: nat, b: nat, m: nat)
    ensures var s := Run(Init(ts, ms), acts);
            && (a in s.threads && b in s.threads && m in s.threads[a].held && m in s.threads[b].held ==> a == b)
            && (a in s.threads ==> s.threads[a].depth == |s.threads[a].held|)
  {
    InitInv(ts, ms);
    RunKeeps(Init(ts, ms), acts);
  }

  /** Neither assertion of mutex_unlock can fire on a mutex the caller locked. */
  lemma UnlockNeverPanics(ts: set<nat>, ms: set<nat>, acts: seq<Action>, t: nat, m: nat)
    ensures var s := Run(Init(ts, ms), acts);
            t in s.threads && m in s.threads[t].held ==> m in s.owner && s.owner[m] == Some(t) && s.threads[t].depth > 0
  {
    InitInv(ts, ms);
    RunKeeps(Init(ts, ms), acts);
    var s := Run(Init(ts, ms), acts);
    if t in s.threads && m in s.threads[t].held {
      assert |{m}| <= |s.threads[t].held| by { SubsetSize({m}, s.threads[t].held); }
    }
  }

  lemma {:induction false} SubsetSize(a: set<nat>, b: set<nat>)
    requires a <= b
    ensures |a| <= |b|
  {
    if a != {} {
      var x :| x in a;
      SubsetSize(a - {x}, b - {x});
    }
  }

  /** A free mutex with waiters always has a thread on its way back to the guard:
      woken, or taken off the list with its wake still to be delivered. */
  lemma NobodyStranded(ts: set<nat>, ms: set<nat>, acts: seq<Action>, m: nat)
    ensures var s := Run(Init(ts, ms), acts);
            m in s.owner ==>
              && m in s.waiters && Distinct(s.waiters[m])
              && (s.owner[m].None? && s.waiters[m] != [] ==>
                    exists t :: InPhase(s, t, Retaking(m)) || (InPhase(s, t, Parked(m)) && WakeOwed(s, t)))
  {
    InitInv(ts, ms);
    RunKeeps(Init(ts, ms), acts);
    var s := Run(Init(ts, ms), acts);
    if m in s.owner && s.owner[m].None? && s.waiters[m] != [] {
      assert NotStranded(s, m);
      var t :| Due(s, t, m);
      assert InPhase(s, t, Retaking(m)) || (InPhase(s, t, Parked(m)) && WakeOwed(s, t));
    }
  }

  // ---- what each call does -----------------------------------------------------------

  ghost predicate Unheld(s: State, m: nat) {
    forall k :: k in s.threads ==> m !in s.threads[k].held
  }

  /** `t` has taken `m`, and nothing else about anybody changed. */
  ghost predicate Takes(s: State, u: State, t: nat, m: nat)
    requires t in s.threads
  {
    var th := s.threads[t];
    && u.owner == s.owner[m := Some(t)]
    && u.threads == s.threads[t := th.(phase := Running, depth := th.depth + 1, held := th.held + {m})]
  }

  /** `t` is asleep for `m`, or will try again at once if a wake had been noted. */
  ghost predicate Parks(s: State, u: State, t: nat, m: nat)
    requires t in s.threads
  {
    var th := s.threads[t];
    && u.owner == s.owner
    && u.threads == s.threads[t := th.(phase := if th.note then Retaking(m) else Parked(m), note := false)]
  }

  lemma HeldOrFree(s: State, m: nat)
    requires Inv(s) && m in s.owner
    ensures Unheld(s, m) <==> s.owner[m].None?
  {
    hide QueueInv, WakeInv, NotStranded;
    if s.owner[m].Some? { assert m in s.threads[s.owner[m].value].held; }
  }

  /** mutex_lock takes a mutex nobody holds, past any waiters; else it queues last and
      parks.  mutex_trylock takes it in the same case, and otherwise changes nothing at
      all: it never queues and never parks. */
  lemma LockExactly(s: State, t: nat, m: nat)
    requires Inv(s) && t in s.threads && s.threads[t].phase.Running? && m in s.owner
    ensures m in s.waiters
    ensures m !in s.threads[t].held ==>
              var u := Step(s, Lock(t, m));
              && (Unheld(s, m) ==> Takes(s, u, t, m) && u.waiters == s.waiters)
              && (!Unheld(s, m) ==> Parks(s, u, t, m) && u.waiters == s.waiters[m := s.waiters[m] + [t]])
    ensures var u := Step(s, TryLock(t, m));
            && (Unheld(s, m) ==> Takes(s, u, t, m) && u.waiters == s.waiters)
            && (!Unheld(s, m) ==> u == s)
  {
    hide WakeInv, NotStranded;
    HeldOrFree(s, m);
  }

  /** After a park: off the list wherever it was, the others in their order, and then as
      mutex_lock. */
  lemma RetakeExactly(s: State, t: nat, before: seq<nat>, behind: seq<nat>)
    requires Inv(s) && t in s.threads && s.threads[t].phase.Retaking?
    ensures s.threads[t].phase.m in s.owner && s.threads[t].phase.m in s.waiters
    ensures var m := s.threads[t].phase.m;
            var q := s.waiters[m];
            var u := Step(s, Retake(t));
            && m in u.waiters && u.waiters == s.waiters[m := u.waiters[m]]
            && (Unheld(s, m) ==> Takes(s, u, t, m))
            && (!Unheld(s, m) ==> Parks(s, u, t, m))
            && (q == before + [t] + behind ==> u.waiters[m] == before + behind + if Unheld(s, m) then [] else [t])
            && (t !in q ==> u.waiters[m] == q + if Unheld(s, m) then [] else [t])
  {
    hide WakeInv, NotStranded;
    var m := s.threads[t].phase.m;
    var q := s.waiters[m];
    HeldOrFree(s, m);
    if q == before + [t] + behind {
      assert q[|before|] == t;
      forall i | 0 <= i < |before|
        ensures before[i] != t
      {
        assert q[i] == before[i];
      }
      WithoutFirst(before, t, behind);
    }
    if t !in q { WithoutAbsent(q, t); }
  }

  lemma {:induction false} WithoutFirst(before: seq<nat>, t: nat, behind: seq<nat>)
    requires forall i :: 0 <= i < |before| ==> before[i] != t
    ensures Without(before + [t] + behind, t) == before + behind
    decreases |before|
  {
    var q := before + [t] + behind;
    if before == [] {
      assert q[1..] == behind;
      assert before + behind == behind;
    } else {
      assert q[1..] == before[1..] + [t] + behind;
      WithoutFirst(before[1..], t, behind);
      assert before + behind == [before[0]] + (before[1..] + behind);
    }
  }

  lemma {:induction false} WithoutAbsent(q: seq<nat>, t: nat)
    requires t !in q
    ensures Without(q, t) == q
    decreases |q|
  {
    if q != [] {
      WithoutAbsent(q[1..], t);
      assert q == [q[0]] + q[1..];
    }
  }

  /** mutex_unlock gives up the mutex, takes the first waiter off the list and wakes exactly
      that one: asleep, it goes for the guard; awake, the wake is noted. */
  lemma UnlockExactly(s: State, t: nat, m: nat)
    requires Inv(s) && t in s.threads && s.threads[t].phase.Running? && m in s.threads[t].held
    ensures m in s.owner && m in s.waiters
    ensures var q := s.waiters[m];
            var u := Step(s, Unlock(t, m));
            var th := s.threads[t];
            && u.owner == s.owner[m := None]
            && u.waiters == s.waiters[m := if q == [] then [] else q[1..]]
            && u.threads == s.threads[t := th.(phase := if q == [] then Running else Waking(q[0]),
                                               depth := th.depth - 1, held := th.held - {m})]
  {
    hide WakeInv, NotStranded;
  }

  lemma WakeExactly(s: State, t: nat, k: nat)
    requires Inv(s) && t in s.threads && s.threads[t].phase.Waking? && k in s.threads
    ensures var u := Step(s, FinishUnlock(t));
            && u.owner == s.owner && u.waiters == s.waiters && u.threads.Keys == s.threads.Keys
            && (k == s.threads[t].phase.w && k != t ==>
                  if s.threads[k].phase.Parked? then u.threads[k] == s.threads[k].(phase := Retaking(s.threads[k].phase.m))
                  else u.threads[k] == s.threads[k].(note := true))
            && (k == t && s.threads[t].phase.w != t ==> u.threads[t] == s.threads[t].(phase := Running))
            && (k != t && k != s.threads[t].phase.w ==> u.threads[k] == s.threads[k])
  {
    hide OwnerInv, QueueInv, NotStranded;
  }

  // ---- the intrusive list ---------------------------------------------------------------

  /** A thread, as far as the list is concerned: the field it is linked through. */
  class Waiter {
    var link: Waiter?        // th_wait_link

    constructor ()
      ensures link == null
    {
      link := null;
    }
  }

  ghost predicate Unique(q: seq<Waiter>) {
    forall i, j :: 0 <= i < j < |q| ==> q[i] != q[j]
  }

  /** The elements of `q` are linked in order and the last one to nothing. */
  ghost predicate Linked(q: seq<Waiter>)
    reads q
  {
    && (forall i, j :: 0 <= i < |q| && j == i + 1 && j < |q| ==> q[i].link == q[j])
    && (q != [] ==> q[|q| - 1].link == null)
  }

  class WaitList {
    var head: Waiter?
    var tail: Waiter?
    ghost var q: seq<Waiter>     // the waiters, first come first

    ghost predicate Valid()
      reads this, q
    {
      && Unique(q) && Linked(q)
      && (q == [] ==> head == null && tail == null)
      && (q != [] ==> head == q[0] && tail == q[|q| - 1])
    }

    constructor ()
      ensures Valid() && q == []
    {
      head, tail, q := null, null, [];
    }

    method Push(th: Waiter)
      requires Valid() && th !in q
      modifies this, th, q
      ensures Valid() && q == old(q) + [th]
    {
      th.link := null;
      if tail != null {
        tail.link := th;
      } else {
        head := th;
      }
      tail := th;
      q := q + [th];
    }

    method Pop() returns (th: Waiter?)
      requires Valid()
      modifies this, q
      ensures Valid()
      ensures old(q) == [] ==> th == null && q == []
      ensures old(q) != [] ==> th == old(q)[0] && q == old(q)[1..] && th.link == null
    {
      th := head;
      if th == null {
        return;
      }
      assert q[0].link == if 1 < |q| then q[1] else null;
      head := th.link;
      if head == null {
        tail := null;
      }
      th.link := null;
      ghost var was := q;
      q := q[1..];
      assert forall i :: 0 <= i < |q| ==> q[i] == was[i + 1] && q[i] != was[0];
    }

    /** The scan of waiter_unbind: the link before `th`, and whether it is there. */
    method Find(th: Waiter) returns (found: bool, prev: Waiter?, ghost i: nat)
      requires Valid()
      ensures !found <==> th !in q
      ensures found ==> i < |q| && q[i] == th && prev == if i > 0 then q[i - 1] else null
    {
      prev := null;
      found := false;
      var cur := head;
      i := 0;
      while cur != null
        invariant 0 <= i <= |q|
        invariant cur == if i < |q| then q[i] else null
        invariant prev == if i > 0 then q[i - 1] else null
        invariant th !in q[..i]
        decreases |q| - i
      {
        assert cur == q[i] && (i + 1 < |q| ==> q[i].link == q[i + 1]);
        if cur == th {
          return true, prev, i;
        }
        assert q[..i + 1] == q[..i] + [q[i]];
        prev := cur;
        cur := cur.link;
        i := i + 1;
      }
    }

    /** Take `th` off wherever it is on the list; nothing if it is not on it. */
    method Unbind(th: Waiter)
      requires Valid()
      modifies this, q
      ensures Valid()
      ensures th !in old(q) ==> q == old(q) && unchanged(q)
      ensures forall i :: 0 <= i < |old(q)| && old(q)[i] == th ==>
                q == old(q)[..i] + old(q)[i + 1..] && th.link == null
    {
      var found, prev, i := Find(th);
      if !found {
        return;
      }
      assert q[i] == th && (i + 1 < |q| ==> q[i].link == q[i + 1]);
      if prev == null {
        head := th.link;
      } else {
        prev.link := th.link;
      }
      if tail == th {
        tail := prev;
      }
      th.link := null;
      CutLinks(q, i);
      q := q[..i] + q[i + 1..];
    }
  }

  /** Links that skip position `i` of `q` are the links of `q` without it. */
  lemma CutLinks(q: seq<Waiter>, i: nat)
    requires Unique(q) && i < |q|
    requires forall a, b :: 0 <= a < |q| && b == a + 1 && b < |q| && a != i && b != i ==> q[a].link == q[b]
    requires 0 < i ==> q[i - 1].link == if i + 1 < |q| then q[i + 1] else null
    requires i + 1 < |q| ==> q[|q| - 1].link == null
    ensures Unique(q[..i] + q[i + 1..]) && Linked(q[..i] + q[i + 1..])
  {
    var r := q[..i] + q[i + 1..];
    assert forall k :: 0 <= k < i ==> r[k] == q[k];
    assert forall k :: i <= k < |r| ==> r[k] == q[k + 1];
    forall a, b | 0 <= a < |r| && b == a + 1 && b < |r|
      ensures r[a].link == r[b]
    {
      if a >= i {
        assert q[a + 1].link == q[a + 2];
      } else if b < i {
        assert q[a].link == q[b];
      }
    }
  }
}
