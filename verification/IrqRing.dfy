/** The interrupt-to-thread ring and its sleep/wake handshake (dev/kbd.c, and the
    same protocol in dev/uart.c and dev/mouse.c).

    One producer (the interrupt handler) and one consumer (the driver thread) share
    free-running 32-bit indices, a slot array, a waiter slot both sides exchange,
    and a pending flag.  Every atomic load, store and exchange is a step of its own;
    an action that does not fit the current state changes nothing. */
module IrqRing {

  const TWO_32: nat := 0x1_0000_0000

  const KBD_BUF_SIZE: nat := 128
  const UART_BUF_SIZE: nat := 256
  const MOUSE_RING_SIZE: nat := 32

  /** Where the interrupt handler is inside a push. */
  datatype Irq<T> =
    | Idle
    | Storing(item: T)       // room seen; the slot is written next
    | Publishing(item: T)    // slot written; head is stored next
    | Swapping               // head stored; the waiter slot is exchanged next
    | Marking                // took the consumer; the pending flag is set next
    | Posting                // ...and then its wake is posted

  /** Where the consumer is inside a blocking get.  `second` tells the recheck
      from the first look. */
  datatype Consumer<T> =
    | Looking                            // first look at the ring
    | Reading(second: bool)              // something there; the slot is read next
    | Advancing(second: bool, item: T)   // slot read; tail is stored next
    | Uninstalling(item: T)              // taken on the recheck; the waiter slot is cleared next
    | Returned(item: T)
    | Clearing                           // empty; the pending flag is cleared next
    | Installing                         // ...then our name goes into the waiter slot
    | Rechecking                         // ...then the ring is looked at again
    | Testing                            // still empty; the pending flag is read next
    | Forgetting                         // pending was set; the waiter slot is cleared next
    | Parking                            // thread_block is entered next
    | Asleep

  datatype State<T> = State(
    cap: nat,                // a power of two: the mask is `cap - 1`
    head: nat, tail: nat,    // uint32_t, free-running
    slots: seq<T>,
    waiter: bool,            // the waiter slot names the consumer
    pending: bool,           // the wake-pending flag
    irq: Irq<T>,
    con: Consumer<T>,
    posted: bool,            // on the deferred-wake list
    waking: nat,             // taken off it, thread_wake still to come
    note: bool,              // th_wake_pending: a wake that found the consumer awake
    accepted: seq<T>,        // history: every item published
    taken: seq<T>)           // history: every item consumed

  datatype Action<T> =
    | Interrupt(item: T)     // an item arrives: the indices are loaded and compared
    | IrqStep                // the handler's next atomic operation
    | Consume                // the consumer's next atomic operation
    | DrainTake              // sched_drain_irq_wakes takes the wake off the list
    | DrainWake              // ...and delivers it
    | Stray                  // any other wake of the consumer

  /** Capacities the mask works for: they divide the range of the indices. */
  predicate ValidCap(cap: nat) {
    0 < cap <= TWO_32 / 2 && TWO_32 % cap == 0
  }

  function Init<T>(cap: nat, slots: seq<T>): State<T> {
    State(cap, 0, 0, slots, false, false, Idle, Looking, false, 0, false, [], [])
  }

  /** head - tail, as unsigned 32-bit subtraction. */
  function Fill32<T>(s: State<T>): nat {
    (s.head - s.tail) % TWO_32
  }

  /** thread_wake: end a sleep, or leave a note for the next one. */
  function Wake<T>(s: State<T>): State<T> {
    if s.con.Asleep? then s.(con := Looking, note := false) else s.(note := true)
  }

  function Produce<T>(s: State<T>): State<T>
    requires 0 < s.cap <= |s.slots|
  {
    match s.irq
    case Idle => s
    case Storing(x) => s.(slots := s.slots[s.head % s.cap := x], irq := Publishing(x))
    case Publishing(x) => s.(head := (s.head + 1) % TWO_32, irq := Swapping, accepted := s.accepted + [x])
    case Swapping => s.(waiter := false, irq := if s.waiter then Marking else Idle)
    case Marking => s.(pending := true, irq := Posting)
    case Posting => s.(posted := true, irq := Idle)
  }

  function Get<T>(s: State<T>): State<T>
    requires 0 < s.cap <= |s.slots|
  {
    match s.con
    case Looking => s.(con := if s.head == s.tail then Clearing else Reading(false))
    case Reading(second) => s.(con := Advancing(second, s.slots[s.tail % s.cap]))
    case Advancing(second, x) =>
      s.(tail := (s.tail + 1) % TWO_32, taken := s.taken + [x],
         con := if second then Uninstalling(x) else Returned(x))
    case Uninstalling(x) => s.(waiter := false, con := Returned(x))
    case Returned(_) => s.(con := Looking)
    case Clearing => s.(pending := false, con := Installing)
    case Installing => s.(waiter := true, con := Rechecking)
    case Rechecking => s.(con := if s.head == s.tail then Testing else Reading(true))
    case Testing => s.(con := if s.pending then Forgetting else Parking)
    case Forgetting => s.(waiter := false, con := Looking)
    case Parking => if s.note then s.(note := false, con := Looking) else s.(con := Asleep)
    case Asleep => s
  }

  function Step<T>(s: State<T>, a: Action<T>): State<T>
    requires 0 < s.cap <= |s.slots|
  {
    match a
    case Interrupt(x) =>
      if s.irq.Idle? && Fill32(s) < s.cap then s.(irq := Storing(x)) else s
    case IrqStep => Produce(s)
    case Consume => Get(s)
    case DrainTake => if s.posted then s.(posted := false, waking := s.waking + 1) else s
    case DrainWake => if s.waking > 0 then Wake(s.(waking := s.waking - 1)) else s
    case Stray => Wake(s)
  }

  function Run<T>(s: State<T>, acts: seq<Action<T>>): State<T>
    requires 0 < s.cap <= |s.slots|
    decreases |acts|
  {
    if acts == [] then s
    else
      StepShape(s, acts[0]);
      Run(Step(s, acts[0]), acts[1..])
  }

  lemma StepShape<T>(s: State<T>, a: Action<T>)
    requires 0 < s.cap <= |s.slots|
    ensures Step(s, a).cap == s.cap && |Step(s, a).slots| == |s.slots|
  {
    match a
    case IrqStep => ProduceShape(s);
    case Consume => GetShape(s);
    case _ =>
  }

  lemma ProduceShape<T>(s: State<T>)
    requires 0 < s.cap <= |s.slots|
    ensures Produce(s).cap == s.cap && |Produce(s).slots| == |s.slots|
  {
  }

  lemma GetShape<T>(s: State<T>)
    requires 0 < s.cap <= |s.slots|
    ensures Get(s).cap == s.cap && Get(s).slots == s.slots
  {
  }

  // ---- the ring is a bounded FIFO ----------------------------------------------

  /** What the ring holds, oldest first: read through the wrapped indices. */
  function Contents<T>(s: State<T>): seq<T>
    requires 0 < s.cap <= |s.slots|
  {
    seq(Fill32(s), i requires 0 <= i => s.slots[(s.tail + i) % TWO_32 % s.cap])
  }

  /** The indices count the history modulo 2^32, and the live slots hold its end. */
  ghost predicate RingInv<T>(s: State<T>) {
    var a, t := |s.accepted|, |s.taken|;
    && ValidCap(s.cap) && |s.slots| == s.cap
    && t <= a <= t + s.cap
    && s.head == a % TWO_32 && s.tail == t % TWO_32
    && s.taken == s.accepted[..t]
    && (forall k :: t <= k < a ==> s.slots[k % s.cap] == s.accepted[k])
    && (s.irq.Storing? || s.irq.Publishing? ==> a < t + s.cap)
    && (s.irq.Publishing? ==> s.slots[a % s.cap] == s.irq.item)
    && (s.con.Reading? || s.con.Advancing? ==> t < a)
    && (s.con.Advancing? ==> s.con.item == s.accepted[t])
  }

  lemma ModOfMultiple(k: nat, m: nat, c: nat)
    requires 0 < c && m % c == 0 && 0 < m
    ensures k % m % c == k % c
  {
    var q, r := k / m, k % m;
    var d := m / c;
    assert m == c * d;
    assert k == c * (d * q) + r;
    SameResidue(r, d * q, c);
  }

  lemma SameResidue(r: int, j: int, c: int)
    requires 0 < c
    ensures (c * j + r) % c == r % c
  {
    var x := c * j + r;
    assert x - x % c == c * (x / c);
    assert r - r % c == c * (r / c);
    assert x % c - r % c == c * (j + r / c - x / c);
    MultipleInside(x % c - r % c, j + r / c - x / c, c);
  }

  lemma MultipleInside(d: int, j: int, c: int)
    requires 0 < c && d == c * j && -c < d < c
    ensures d == 0
  {
    MulBounds(j, c);
  }

  lemma MulBounds(j: int, c: int)
    requires 0 < c
    ensures 1 <= j ==> c <= c * j
    ensures j <= -1 ==> c * j <= -c
  {
  }

  /** Stepping or offsetting a wrapped index is the wrapped index of the step. */
  lemma AddIndex(t: nat, i: nat)
    ensures (t % TWO_32 + i) % TWO_32 == (t + i) % TWO_32
  {
    assert t % TWO_32 + i == TWO_32 * -(t / TWO_32) + (t + i);
    SameResidue(t + i, -(t / TWO_32), TWO_32);
  }

  /** Unsigned subtraction of the indices is the fill level, across the wrap. */
  lemma FillLevel<T>(s: State<T>)
    requires RingInv(s)
    ensures Fill32(s) == |s.accepted| - |s.taken|
    ensures s.head == s.tail <==> s.accepted == s.taken
  {
    var a, t := |s.accepted|, |s.taken|;
    assert s.head - s.tail == (a - t) - TWO_32 * (a / TWO_32 - t / TWO_32);
    SameResidue(a - t, -(a / TWO_32 - t / TWO_32), TWO_32);
    assert a == t ==> s.accepted == s.accepted[..t];
  }

  /** Two live positions of the history never share a slot. */
  lemma DistinctSlots(j: nat, k: nat, cap: nat)
    requires 0 < cap && j < k < j + cap
    ensures j % cap != k % cap
  {
    if j % cap == k % cap {
      assert k - j == cap * (k / cap - j / cap);
      MultipleInside(k - j, k / cap - j / cap, cap);
    }
  }

  /** The slot the handler writes is never one the consumer may read. */
  lemma StoreMissesLiveSlots<T>(s: State<T>, k: nat)
    requires RingInv(s) && s.irq.Storing? && |s.taken| <= k < |s.accepted|
    ensures k % s.cap != s.head % s.cap
  {
    ModOfMultiple(|s.accepted|, TWO_32, s.cap);
    DistinctSlots(k, |s.accepted|, s.cap);
  }

  lemma StoreKeepsRing<T>(s: State<T>)
    requires RingInv(s) && s.irq.Storing?
    ensures RingInv(Produce(s))
  {
    var u := Produce(s);
    assert s.head % s.cap == |s.accepted| % s.cap by { ModOfMultiple(|s.accepted|, TWO_32, s.cap); }
    forall k | |s.taken| <= k < |s.accepted|
      ensures u.slots[k % s.cap] == s.accepted[k]
    {
      StoreMissesLiveSlots(s, k);
    }
  }

  lemma PublishKeepsRing<T>(s: State<T>)
    requires RingInv(s) && s.irq.Publishing?
    ensures RingInv(Produce(s))
  {
    var u := Produce(s);
    AddIndex(|s.accepted|, 1);
    assert u.accepted[..|s.taken|] == s.accepted[..|s.taken|];
    assert forall k :: |s.taken| <= k < |s.accepted| ==> u.accepted[k] == s.accepted[k];
  }

  lemma ProduceKeepsRing<T>(s: State<T>)
    requires RingInv(s)
    ensures 0 < s.cap <= |s.slots| && RingInv(Produce(s))
  {
    hide RingInv;
    RingHasSlots(s);
    match s.irq
    case Storing(x) => StoreKeepsRing(s);
    case Publishing(x) => PublishKeepsRing(s);
    case _ => HandshakeKeepsRing(s, Produce(s));
  }

  lemma AdvanceKeepsRing<T>(s: State<T>)
    requires RingInv(s) && s.con.Advancing?
    ensures RingInv(Get(s))
  {
    var t := |s.taken|;
    AddIndex(t, 1);
    assert s.accepted[..t + 1] == s.accepted[..t] + [s.con.item];
  }

  lemma LookKeepsRing<T>(s: State<T>)
    requires RingInv(s) && (s.con.Looking? || s.con.Rechecking?)
    ensures RingInv(Get(s))
  {
    FillLevel(s);
  }

  lemma ReadKeepsRing<T>(s: State<T>)
    requires RingInv(s) && s.con.Reading?
    ensures RingInv(Get(s))
  {
    ModOfMultiple(|s.taken|, TWO_32, s.cap);
    assert s.slots[|s.taken| % s.cap] == s.accepted[|s.taken|];
  }

  /** Steps that touch only the handshake leave the ring's invariant alone. */
  lemma HandshakeKeepsRing<T>(s: State<T>, u: State<T>)
    requires RingInv(s)
    requires u == s.(con := u.con, irq := u.irq, waiter := u.waiter, pending := u.pending,
                     note := u.note, posted := u.posted, waking := u.waking)
    requires u.irq == s.irq || !(u.irq.Storing? || u.irq.Publishing?)
    requires u.con == s.con || !(u.con.Reading? || u.con.Advancing?)
    ensures RingInv(u)
  {
  }

  lemma RingHasSlots<T>(s: State<T>)
    requires RingInv(s)
    ensures 0 < s.cap <= |s.slots|
  {
  }

  lemma GetKeepsRing<T>(s: State<T>)
    requires RingInv(s)
    ensures 0 < s.cap <= |s.slots| && RingInv(Get(s))
  {
    hide RingInv;
    RingHasSlots(s);
    match s.con
    case Looking => LookKeepsRing(s);
    case Rechecking => LookKeepsRing(s);
    case Reading(_) => ReadKeepsRing(s);
    case Advancing(_, x) => AdvanceKeepsRing(s);
    case _ => HandshakeKeepsRing(s, Get(s));
  }

  lemma AdmitKeepsRing<T>(s: State<T>, x: T)
    requires RingInv(s)
    ensures RingInv(Step(s, Interrupt(x)))
  {
    FillLevel(s);
  }

  lemma StepKeepsRing<T>(s: State<T>, a: Action<T>)
    requires RingInv(s)
    ensures 0 < s.cap <= |s.slots| && RingInv(Step(s, a))
  {
    hide RingInv, Produce, Get;
    RingHasSlots(s);
    match a
    case Interrupt(x) => AdmitKeepsRing(s, x);
    case IrqStep => ProduceKeepsRing(s);
    case Consume => GetKeepsRing(s);
    case _ => HandshakeKeepsRing(s, Step(s, a));
  }

  /** What the ring holds is exactly what was accepted and not yet taken. */
  lemma ContentsAreTheBacklog<T>(s: State<T>)
    requires RingInv(s)
    ensures s.taken + Contents(s) == s.accepted
    ensures |Contents(s)| <= s.cap
  {
    FillLevel(s);
    var t, a := |s.taken|, |s.accepted|;
    forall i | 0 <= i < a - t
      ensures Contents(s)[i] == s.accepted[t + i]
    {
      ContentsAt(s, i);
    }
  }

  lemma ContentsAt<T>(s: State<T>, i: nat)
    requires RingInv(s) && |s.taken| + i < |s.accepted|
    ensures s.slots[(s.tail + i) % TWO_32 % s.cap] == s.accepted[|s.taken| + i]
  {
    var t := |s.taken|;
    AddIndex(t, i);
    ModOfMultiple(t + i, TWO_32, s.cap);
  }

  /** An arriving item is refused only by a full ring (or, being in one handler, by
      nothing else). */
  lemma DropsOnlyWhenFull<T>(s: State<T>, x: T)
    requires RingInv(s) && s.irq.Idle?
    ensures Step(s, Interrupt(x)).irq == Idle <==> |Contents(s)| == s.cap
  {
    FillLevel(s);
  }

  // ---- no wake is lost ----------------------------------------------------------

  /** A wake is on its way to the consumer, or kept for its next park. */
  predicate Owed<T>(s: State<T>) {
    s.posted || s.waking > 0 || s.note || s.irq.Marking? || s.irq.Posting?
  }

  /** Past its recheck and not yet back at the top. */
  predicate Committed<T>(s: State<T>) {
    s.con.Testing? || s.con.Parking? || s.con.Asleep?
  }

  predicate Nonempty<T>(s: State<T>) {
    s.head != s.tail
  }

  predicate WakeInv<T>(s: State<T>) {
    && (s.con.Rechecking? || Committed(s) ==> s.waiter || Owed(s))
    && (Committed(s) && Nonempty(s) ==> Owed(s) || (s.irq.Swapping? && s.waiter))
    && (s.con.Asleep? ==> !s.note)
  }

  lemma ProduceKeepsWake<T>(s: State<T>)
    requires 0 < s.cap <= |s.slots| && WakeInv(s)
    ensures WakeInv(Produce(s))
  {
  }

  lemma GetKeepsWake<T>(s: State<T>)
    requires 0 < s.cap <= |s.slots| && WakeInv(s)
    ensures WakeInv(Get(s))
  {
  }

  lemma StepKeepsWake<T>(s: State<T>, a: Action<T>)
    requires 0 < s.cap <= |s.slots| && WakeInv(s)
    ensures WakeInv(Step(s, a))
  {
    match a
    case IrqStep => ProduceKeepsWake(s);
    case Consume => GetKeepsWake(s);
    case _ =>
  }

  ghost predicate Inv<T>(s: State<T>) {
    RingInv(s) && WakeInv(s)
  }

  lemma {:induction false} RunKeeps<T>(s: State<T>, acts: seq<Action<T>>)
    requires Inv(s)
    ensures Inv(Run(s, acts))
    decreases |acts|
  {
    if acts != [] {
      StepKeepsRing(s, acts[0]);
      StepKeepsWake(s, acts[0]);
      RunKeeps(Step(s, acts[0]), acts[1..]);
    }
  }

  /** Over every interleaving, of any length and across any number of index wraps:
      items come out in the order they went in with none lost or invented between,
      and the ring never holds more than its capacity. */
  lemma RefinesFifo<T>(cap: nat, slots: seq<T>, acts: seq<Action<T>>)
    requires ValidCap(cap) && |slots| == cap
    ensures var s := Run(Init(cap, slots), acts);
            0 < s.cap <= |s.slots| && s.taken + Contents(s) == s.accepted && |Contents(s)| <= cap
  {
    RunKeeps(Init(cap, slots), acts);
    ContentsAreTheBacklog(Run(Init(cap, slots), acts));
    RunShape(Init(cap, slots), acts);
  }

  lemma {:induction false} RunShape<T>(s: State<T>, acts: seq<Action<T>>)
    requires 0 < s.cap <= |s.slots|
    ensures Run(s, acts).cap == s.cap && |Run(s, acts).slots| == |s.slots|
    decreases |acts|
  {
    if acts != [] {
      StepShape(s, acts[0]);
      RunShape(Step(s, acts[0]), acts[1..]);
    }
  }

  /** Over every interleaving, the consumer never sleeps on a ring with something
      in it unless its wake is posted or being delivered, or the handler is still on
      its way to post one. */
  lemma NoLostWake<T>(cap: nat, slots: seq<T>, acts: seq<Action<T>>)
    requires ValidCap(cap) && |slots| == cap
    ensures var s := Run(Init(cap, slots), acts);
            s.con.Asleep? && s.accepted != s.taken ==>
              s.posted || s.waking > 0 || s.irq.Marking? || s.irq.Posting? || (s.irq.Swapping? && s.waiter)
  {
    RunKeeps(Init(cap, slots), acts);
    FillLevel(Run(Init(cap, slots), acts));
  }

  /** Once the handler is idle and every posted wake delivered, a sleeping consumer
      has an empty ring and its name in the waiter slot, where the next push finds it. */
  lemma QuietSleepIsArmed<T>(cap: nat, slots: seq<T>, acts: seq<Action<T>>)
    requires ValidCap(cap) && |slots| == cap
    ensures var s := Run(Init(cap, slots), acts);
            s.con.Asleep? && s.irq.Idle? && !s.posted && s.waking == 0 ==> s.accepted == s.taken && s.waiter
  {
    RunKeeps(Init(cap, slots), acts);
    FillLevel(Run(Init(cap, slots), acts));
  }

  // ---- what goes in and what the calls answer --------------------------------------

  /** The item the handler has let in and not yet published. */
  function Entering<T>(s: State<T>): seq<T> {
    if s.irq.Storing? || s.irq.Publishing? then [s.irq.item] else []
  }

  /** What arrives in a run and finds the handler idle and fewer than `cap` items waiting. */
  ghost function Admitted<T>(s: State<T>, acts: seq<Action<T>>): seq<T>
    requires 0 < s.cap <= |s.slots|
    decreases |acts|
  {
    if acts == [] then []
    else
      StepShape(s, acts[0]);
      (if acts[0].Interrupt? && s.irq.Idle? && |s.accepted| - |s.taken| < s.cap then [acts[0].item] else [])
      + Admitted(Step(s, acts[0]), acts[1..])
  }

  /** The item each call of a run answers, in order. */
  ghost function Answers<T>(s: State<T>, acts: seq<Action<T>>): seq<T>
    requires 0 < s.cap <= |s.slots|
    decreases |acts|
  {
    if acts == [] then []
    else
      StepShape(s, acts[0]);
      var u := Step(s, acts[0]);
      (if u.con.Returned? && !s.con.Returned? then [u.con.item] else []) + Answers(u, acts[1..])
  }

  /** A call that has taken an item is about to answer it, or has. */
  ghost predicate AnswerInv<T>(s: State<T>) {
    s.con.Uninstalling? || s.con.Returned? ==> s.taken != [] && s.con.item == s.taken[|s.taken| - 1]
  }

  /** The items taken by calls that have answered. */
  function Given<T>(s: State<T>): seq<T>
    requires s.con.Uninstalling? ==> s.taken != []
  {
    if s.con.Uninstalling? then s.taken[..|s.taken| - 1] else s.taken
  }

  lemma EntersStep<T>(s: State<T>, a: Action<T>)
    requires RingInv(s)
    ensures 0 < s.cap <= |s.slots|
    ensures var u := Step(s, a);
            u.accepted + Entering(u) == s.accepted + Entering(s)
              + if a.Interrupt? && s.irq.Idle? && |s.accepted| - |s.taken| < s.cap then [a.item] else []
  {
    hide RingInv, Produce, Get;
    RingHasSlots(s);
    FillLevel(s);
    if a.IrqStep? { ProduceEnters(s); }
    if a.Consume? { GetLeavesHandler(s); }
  }

  lemma ProduceEnters<T>(s: State<T>)
    requires 0 < s.cap <= |s.slots|
    ensures Produce(s).accepted + Entering(Produce(s)) == s.accepted + Entering(s)
  {
  }

  lemma GetLeavesHandler<T>(s: State<T>)
    requires 0 < s.cap <= |s.slots|
    ensures Get(s).accepted == s.accepted && Get(s).irq == s.irq
  {
  }

  /** Only two of the consumer's steps bear on what it answers. */
  lemma AnsweringCases<T>(s: State<T>)
    requires 0 < s.cap <= |s.slots| && (s.con.Uninstalling? || s.con.Advancing?)
    ensures s.con.Uninstalling? ==> Get(s).con == Returned(s.con.item) && Get(s).taken == s.taken
    ensures s.con.Advancing? ==>
              && Get(s).con == (if s.con.second then Uninstalling(s.con.item) else Returned(s.con.item))
              && Get(s).taken == s.taken + [s.con.item]
  {
  }

  lemma OtherCases<T>(s: State<T>)
    requires 0 < s.cap <= |s.slots| && !s.con.Uninstalling? && !s.con.Advancing?
    ensures Get(s).taken == s.taken && !Get(s).con.Returned? && !Get(s).con.Uninstalling?
  {
    if s.con.Looking? || s.con.Rechecking? || s.con.Reading? {
    } else if s.con.Returned? || s.con.Clearing? || s.con.Installing? {
    } else if s.con.Testing? || s.con.Forgetting? {
    } else {
    }
  }

  lemma GetAnswers<T>(s: State<T>)
    requires 0 < s.cap <= |s.slots| && AnswerInv(s)
    ensures var u := Get(s);
            && AnswerInv(u)
            && Given(u) == Given(s) + if u.con.Returned? && !s.con.Returned? then [u.con.item] else []
  {
    hide Get;
    if s.con.Uninstalling? || s.con.Advancing? { AnsweringCases(s); } else { OtherCases(s); }
    if s.con.Uninstalling? {
      var n := |s.taken| - 1;
      assert s.taken == s.taken[..n] + [s.taken[n]];
    } else if s.con.Advancing? {
      assert (s.taken + [s.con.item])[..|s.taken|] == s.taken;
    }
  }

  lemma AnswerStep<T>(s: State<T>, a: Action<T>)
    requires 0 < s.cap <= |s.slots| && AnswerInv(s)
    ensures var u := Step(s, a);
            && AnswerInv(u)
            && Given(u) == Given(s) + if u.con.Returned? && !s.con.Returned? then [u.con.item] else []
  {
    hide Produce, Get;
    if a.IrqStep? { ProduceLeavesConsumer(s); }
    if a.Consume? { GetAnswers(s); }
  }

  lemma ProduceLeavesConsumer<T>(s: State<T>)
    requires 0 < s.cap <= |s.slots|
    ensures Produce(s).con == s.con && Produce(s).taken == s.taken
  {
  }

  lemma {:induction false} StreamRun<T>(s: State<T>, acts: seq<Action<T>>)
    requires RingInv(s) && AnswerInv(s)
    ensures 0 < s.cap <= |s.slots|
    ensures var u := Run(s, acts);
            && AnswerInv(u)
            && u.accepted + Entering(u) == s.accepted + Entering(s) + Admitted(s, acts)
            && Given(u) == Given(s) + Answers(s, acts)
    decreases |acts|
  {
    hide RingInv, AnswerInv, Step, Given, Entering;
    RingHasSlots(s);
    TakenIfUninstalling(s);
    if acts != [] {
      var u := Step(s, acts[0]);
      StepKeepsRing(s, acts[0]);
      RingHasSlots(u);
      EntersStep(s, acts[0]);
      AnswerStep(s, acts[0]);
      TakenIfUninstalling(u);
      StreamRun(u, acts[1..]);
    }
  }

  lemma TakenIfUninstalling<T>(s: State<T>)
    requires AnswerInv(s)
    ensures s.con.Uninstalling? ==> s.taken != []
  {
  }

  /** Over every run: what went into the ring is what arrived when the handler was idle and
      there was room, in order; and the calls answered, one item each, exactly what was
      taken out, in order, so each answers the oldest item not answered before. */
  lemma CallsAnswerTheStream<T>(cap: nat, slots: seq<T>, acts: seq<Action<T>>)
    requires ValidCap(cap) && |slots| == cap
    ensures var s0 := Init(cap, slots);
            var u := Run(s0, acts);
            && (u.con.Returned? || u.con.Uninstalling? ==> u.taken != [] && u.con.item == u.taken[|u.taken| - 1])
            && u.accepted + Entering(u) == Admitted(s0, acts)
            && u.taken == Answers(s0, acts) + (if u.con.Uninstalling? then [u.con.item] else [])
            && Answers(s0, acts) <= Admitted(s0, acts)
  {
    hide Run, Admitted, Answers, Contents;
    var s0 := Init(cap, slots);
    StreamRun(s0, acts);
    RefinesFifo(cap, slots, acts);
    var u := Run(s0, acts);
    var last := if u.con.Uninstalling? then [u.con.item] else [];
    assert u.taken == Answers(s0, acts) + last;
    Prefix(Answers(s0, acts), last, Contents(u), Entering(u));
  }

  lemma Prefix<T>(a: seq<T>, b: seq<T>, c: seq<T>, d: seq<T>)
    ensures a <= a + b + c + d
  {
  }

  /** A look at the ring, first or second, goes on to read exactly when something is there. */
  lemma LookExactly<T>(s: State<T>)
    requires RingInv(s) && (s.con.Looking? || s.con.Rechecking?)
    ensures 0 < s.cap <= |s.slots|
    ensures Step(s, Consume).con.Reading? <==> s.taken != s.accepted
    ensures s.con.Rechecking? && s.taken == s.accepted ==> Step(s, Consume).con == Testing
    ensures Step(s, Consume).con.Reading? ==> (Step(s, Consume).con.second <==> s.con.Rechecking?)
  {
    FillLevel(s);
  }

  // ---- wakes are earned -------------------------------------------------------------

  datatype Event =
    | Installs      // the consumer's name goes into the waiter slot
    | Takes         // the handler takes it out and goes on to wake
    | Marks         // the pending flag is set
    | Delivers      // a posted wake reaches the consumer
    | FindsAwake    // a wake, posted or stray, finds the consumer awake
    | CutShort      // a park returns at once
    | Forgets       // the flag sends the consumer round again

  predicate Happens<T>(s: State<T>, a: Action<T>, e: Event)
    requires 0 < s.cap <= |s.slots|
  {
    match e
    case Installs => a.Consume? && s.con.Installing?
    case Takes => a.IrqStep? && s.irq.Swapping? && !Step(s, a).irq.Idle?
    case Marks => a.IrqStep? && s.irq.Marking?
    case Delivers => a.DrainWake? && s.waking > 0
    case FindsAwake => (a.Stray? || (a.DrainWake? && s.waking > 0)) && !s.con.Asleep?
    case CutShort => a.Consume? && s.con.Parking? && !Step(s, a).con.Asleep?
    case Forgets => a.Consume? && s.con.Testing? && !Step(s, a).con.Parking?
  }

  function One(b: bool): nat {
    if b then 1 else 0
  }

  function Times<T>(s: State<T>, acts: seq<Action<T>>, e: Event): nat
    requires 0 < s.cap <= |s.slots|
    decreases |acts|
  {
    if acts == [] then 0
    else
      StepShape(s, acts[0]);
      One(Happens(s, acts[0], e)) + Times(Step(s, acts[0]), acts[1..], e)
  }

  /** Wakes on their way: earned and not delivered. */
  function OnTheWay<T>(s: State<T>): nat {
    s.waking + One(s.posted) + One(s.irq.Marking? || s.irq.Posting?)
  }

  /** The flag is set where the consumer will still read it. */
  predicate Marked<T>(s: State<T>) {
    s.pending && (s.con.Installing? || s.con.Rechecking? || s.con.Testing?)
  }

  /** The handler's own steps: where they go, and the shared words they write. */
  lemma ProduceTurns<T>(s: State<T>)
    requires 0 < s.cap <= |s.slots|
    ensures var u := Produce(s);
            && u.con == s.con && u.note == s.note && u.waking == s.waking
            && (u.irq.Marking? <==> s.irq.Swapping? && s.waiter)
            && (u.irq.Posting? <==> s.irq.Marking?)
            && (u.irq.Idle? <==> s.irq.Idle? || s.irq.Posting? || (s.irq.Swapping? && !s.waiter))
            && (u.waiter <==> s.waiter && !s.irq.Swapping?)
            && (u.pending <==> s.pending || s.irq.Marking?)
            && (u.posted <==> s.posted || s.irq.Posting?)
  {
    if s.irq.Idle? {
    } else if s.irq.Storing? {
    } else if s.irq.Publishing? {
    } else if s.irq.Swapping? {
    } else if s.irq.Marking? {
    } else {
    }
  }

  /** The consumer's own steps, in the same way. */
  lemma GetTurns<T>(s: State<T>)
    requires 0 < s.cap <= |s.slots|
    ensures var u := Get(s);
            && u.irq == s.irq && u.posted == s.posted && u.waking == s.waking
            && (u.con.Installing? <==> s.con.Clearing?)
            && (u.con.Rechecking? <==> s.con.Installing?)
            && (u.con.Testing? ==> s.con.Rechecking?)
            && (s.con.Reading? ==> u.con.Advancing? && u.con.second == s.con.second)
            && (s.con.Advancing? ==> u.con == if s.con.second then Uninstalling(s.con.item) else Returned(s.con.item))
            && (s.con.Uninstalling? ==> u.con == Returned(s.con.item))
            && (u.con.Forgetting? <==> s.con.Testing? && s.pending)
            && (u.con.Parking? <==> s.con.Testing? && !s.pending)
            && (u.con.Asleep? <==> s.con.Asleep? || (s.con.Parking? && !s.note))
            && (u.con.Looking? <==> s.con.Forgetting? || s.con.Returned? || (s.con.Parking? && s.note))
            && (u.waiter <==> s.con.Installing? || (s.waiter && !s.con.Uninstalling? && !s.con.Forgetting?))
            && (u.pending <==> s.pending && !s.con.Clearing?)
            && (u.note <==> s.note && !s.con.Parking?)
  {
    if s.con.Looking? {
    } else if s.con.Reading? {
    } else if s.con.Advancing? {
    } else if s.con.Uninstalling? {
    } else if s.con.Returned? {
    } else if s.con.Clearing? {
    } else if s.con.Installing? {
    } else if s.con.Rechecking? {
    } else if s.con.Testing? {
    } else if s.con.Forgetting? {
    } else if s.con.Parking? {
    } else {
    }
  }

  /** Wakes, and an item arriving. */
  lemma OtherTurns<T>(s: State<T>, a: Action<T>)
    requires 0 < s.cap <= |s.slots| && !a.IrqStep? && !a.Consume?
    ensures var u := Step(s, a);
            var woken := a.Stray? || (a.DrainWake? && s.waking > 0);
            && u.con == (if woken && s.con.Asleep? then Looking else s.con)
            && (u.note <==> if woken then !s.con.Asleep? else s.note)
            && (u.irq == s.irq || (a.Interrupt? && s.irq.Idle? && u.irq == Storing(a.item)))
            && u.waiter == s.waiter && u.pending == s.pending
            && (u.posted <==> s.posted && !a.DrainTake?)
            && u.waking == s.waking + One(a.DrainTake? && s.posted) - One(a.DrainWake? && s.waking > 0)
  {
    if a.Interrupt? {
    } else if a.DrainTake? {
    } else if a.DrainWake? {
    } else {
    }
  }

  /** No step earns more than it pays for. */
  lemma StepEarns<T>(s: State<T>, a: Action<T>)
    requires 0 < s.cap <= |s.slots|
    ensures var u := Step(s, a);
            && One(Happens(s, a, Takes)) + One(u.waiter) <= One(Happens(s, a, Installs)) + One(s.waiter)
            && One(Happens(s, a, Delivers)) + OnTheWay(u) <= One(Happens(s, a, Takes)) + OnTheWay(s)
            && One(Happens(s, a, CutShort)) + One(u.note) <= One(Happens(s, a, FindsAwake)) + One(s.note)
            && One(Happens(s, a, Forgets)) + One(Marked(u)) <= One(Happens(s, a, Marks)) + One(Marked(s))
  {
    hide Produce, Get, Wake, Fill32;
    if a.IrqStep? {
      ProduceTurns(s);
    } else if a.Consume? {
      GetTurns(s);
    } else {
      OtherTurns(s, a);
    }
  }

  lemma {:induction false} RunEarns<T>(s: State<T>, acts: seq<Action<T>>)
    requires 0 < s.cap <= |s.slots|
    ensures var u := Run(s, acts);
            && Times(s, acts, Takes) + One(u.waiter) <= Times(s, acts, Installs) + One(s.waiter)
            && Times(s, acts, Delivers) + OnTheWay(u) <= Times(s, acts, Takes) + OnTheWay(s)
            && Times(s, acts, CutShort) + One(u.note) <= Times(s, acts, FindsAwake) + One(s.note)
            && Times(s, acts, Forgets) + One(Marked(u)) <= Times(s, acts, Marks) + One(Marked(s))
    decreases |acts|
  {
    hide Step, Happens, OnTheWay, Marked;
    if acts != [] {
      StepShape(s, acts[0]);
      StepEarns(s, acts[0]);
      RunEarns(Step(s, acts[0]), acts[1..]);
    }
  }

  /** Over every run: each wake delivered or still on its way was earned by a handler that
      took the consumer's name, each name taken had been put there since, each park cut
      short had a wake that found the consumer awake, and each time round had its mark. */
  lemma WakesAreEarned<T>(cap: nat, slots: seq<T>, acts: seq<Action<T>>)
    requires ValidCap(cap) && |slots| == cap
    ensures var s := Init(cap, slots);
            var u := Run(s, acts);
            && Times(s, acts, Delivers) + OnTheWay(u) <= Times(s, acts, Takes)
            && Times(s, acts, Takes) + One(u.waiter) <= Times(s, acts, Installs)
            && Times(s, acts, CutShort) + One(u.note) <= Times(s, acts, FindsAwake)
            && Times(s, acts, Forgets) <= Times(s, acts, Marks)
  {
    hide Run, Times;
    RunEarns(Init(cap, slots), acts);
  }

  /** The three rings of the source are of this shape. */
  lemma RingSizes()
    ensures ValidCap(KBD_BUF_SIZE) && ValidCap(UART_BUF_SIZE) && ValidCap(MOUSE_RING_SIZE)
  {
  }

  // ---- mouse packets -------------------------------------------------------------

  /** mouse_feed_byte's state: the bytes of the packet in progress. */
  datatype Assembler = Assembler(partial: seq<bv8>, packets: seq<seq<bv8>>)

  predicate Starts(b: bv8) {
    b & 0x08 != 0
  }

  /** The byte that may start a packet is the one whose bit 3 is set. */
  lemma StartsExactly(b: bv8)
    ensures Starts(b) <==> (b >> 3) % 2 == 1
  {
  }

  function Feed(m: Assembler, b: bv8): Assembler {
    if m.partial == [] && !Starts(b) then m
    else if |m.partial| + 1 < 3 then m.(partial := m.partial + [b])
    else Assembler([], m.packets + [m.partial + [b]])
  }

  function FeedAll(m: Assembler, bytes: seq<bv8>): Assembler
    decreases |bytes|
  {
    if bytes == [] then m else FeedAll(Feed(m, bytes[0]), bytes[1..])
  }

  /** The reference reading of a whole byte stream: skip to a byte with bit 3 set,
      take three, repeat; what is left over at the end is the packet in progress. */
  function Parse(bytes: seq<bv8>): (seq<seq<bv8>>, seq<bv8>)
    decreases |bytes|
  {
    if bytes == [] then ([], [])
    else if !Starts(bytes[0]) then Parse(bytes[1..])
    else if |bytes| < 3 then ([], bytes)
    else
      var rest := Parse(bytes[3..]);
      ([bytes[..3]] + rest.0, rest.1)
  }

  /** Feeding a stream byte by byte queues exactly the packets of its reference
      reading, whatever had been queued before. */
  lemma {:induction false} FeedingParses(packets: seq<seq<bv8>>, bytes: seq<bv8>)
    ensures FeedAll(Assembler([], packets), bytes)
         == Assembler(Parse(bytes).1, packets + Parse(bytes).0)
    decreases |bytes|
  {
    var m := Assembler([], packets);
    if bytes == [] {
      assert packets + [] == packets;
    } else if !Starts(bytes[0]) {
      FeedingParses(packets, bytes[1..]);
    } else if |bytes| < 3 {
      var m1 := Assembler([bytes[0]], packets);
      assert Feed(m, bytes[0]) == m1;
      assert packets + [] == packets;
      if |bytes| == 1 {
        assert FeedAll(m1, bytes[1..]) == m1;
      } else {
        assert FeedAll(m1, bytes[1..]) == FeedAll(Feed(m1, bytes[1]), bytes[1..][1..]);
        assert bytes == [bytes[0]] + [bytes[1]] && bytes[1..][1..] == [];
      }
    } else {
      var pkt := bytes[..3];
      assert pkt == [bytes[0]] + [bytes[1]] + [bytes[2]];
      assert bytes[1..][1..] == bytes[2..] && bytes[2..][1..] == bytes[3..];
      var m1 := Assembler([bytes[0]], packets);
      var m2 := Assembler([bytes[0]] + [bytes[1]], packets);
      assert Feed(m, bytes[0]) == m1;
      assert FeedAll(m1, bytes[1..]) == FeedAll(m2, bytes[2..]);
      assert FeedAll(m2, bytes[2..]) == FeedAll(Assembler([], packets + [pkt]), bytes[3..]);
      FeedingParses(packets + [pkt], bytes[3..]);
      assert packets + [pkt] + Parse(bytes[3..]).0 == packets + ([pkt] + Parse(bytes[3..]).0);
    }
  }

  /** Every queued packet is three consecutive bytes of the stream, the first with
      bit 3 set. */
  lemma {:induction false} PacketsAreInTheStream(bytes: seq<bv8>, i: nat) returns (at: nat)
    requires i < |Parse(bytes).0|
    ensures at + 3 <= |bytes| && Parse(bytes).0[i] == bytes[at..at + 3] && Starts(bytes[at])
    decreases |bytes|
  {
    if !Starts(bytes[0]) {
      var j := PacketsAreInTheStream(bytes[1..], i);
      at := j + 1;
      assert bytes[1..][j..j + 3] == bytes[at..at + 3];
    } else if i == 0 {
      at := 0;
    } else {
      var j := PacketsAreInTheStream(bytes[3..], i - 1);
      at := j + 3;
      assert bytes[3..][j..j + 3] == bytes[at..at + 3];
    }
  }
}
