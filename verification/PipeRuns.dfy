/** Every interleaving of the threads that share one pipe (kern/darwin.c).

    What a thread does under `p_lock` is one step; so are each wakeup and each piece
    of readiness news that follows, in the order the code gives them.  A park drops
    the lock and sleeps in one move.  Every descriptor belongs to one thread, and a
    thread inside a call closes nothing.  An action that does not fit the current
    state changes nothing. */
module PipeRuns {
  import opened Pipe

  datatype End = ReadEnd | WriteEnd

  datatype Fd = Fd(end: End, owner: nat)

  /** What a system call answers; `Eof` is a read's 0. */
  datatype Result = Count(n: nat) | Eof | Fault | Interrupted | BrokenPipe

  /** A finished call: what it asked for, the bytes it moved through the ring, and what it
      answered. */
  datatype Call =
    | ReadCall(asked: nat, bytes: seq<bv8>, result: Result)
    | WriteCall(data: seq<bv8>, moved: nat, result: Result)

  datatype Doing =
    | Idle
    | Reading(fd: nat, asked: nat, want: nat)
      // `have`: how much of `data` the bounce buffer has been given so far
    | Writing(fd: nat, data: seq<bv8>, have: nat, done: nat)

  datatype Duty = WakeReaders | WakeWriters | News

  datatype Thread = Thread(doing: Doing, asleep: bool, owes: seq<Duty>, calls: seq<Call>)

  /** A byte that went into or out of the ring, and by whose call. */
  datatype Tag = Tag(who: nat, byte: bv8)

  datatype State = State(
    queue: seq<bv8>,
    readers: nat,
    writers: nat,
    freed: nat,                // how often the pipe was freed
    fds: map<nat, Fd>,
    threads: map<nat, Thread>,
    accepted: seq<Tag>,       // every byte that entered the ring, in order
    taken: seq<Tag>)           // every byte that left it, in order

  datatype Action =
    | Read(t: nat, fd: nat, n: nat)
    | Write(t: nat, fd: nat, data: seq<bv8>)
    | CopyChunk(t: nat, ok: bool)                  // the next chunk's copy-in
    | Pass(t: nat, pending: bool, copyOk: bool)    // one locked pass of either loop
    | Finish(t: nat)                               // all of a write is in
    | Discharge(t: nat)                            // the next wakeup or news owed
    | Stray(t: nat)                                // a wake from elsewhere
    | Dup(t: nat, fd: nat, copy: nat, heir: nat)   // dup, dup2, or fork's copy
    | Close(t: nat, fd: nat)

  // ---- one thread ------------------------------------------------------------------

  function Ended(th: Thread, c: Call): Thread {
    Thread(Idle, false, [], th.calls + [c])
  }

  /** A write that stops early: the count if anything moved, else the error. */
  function Stopped(data: seq<bv8>, done: nat, error: Result): Call {
    WriteCall(data, done, if done > 0 then Count(done) else error)
  }

  predicate AsleepReader(th: Thread) {
    th.doing.Reading? && th.asleep
  }

  predicate AsleepWriter(th: Thread) {
    th.doing.Writing? && th.asleep
  }

  function WakeAllReaders(ts: map<nat, Thread>): map<nat, Thread> {
    map t | t in ts :: if AsleepReader(ts[t]) then ts[t].(asleep := false) else ts[t]
  }

  function WakeAllWriters(ts: map<nat, Thread>): map<nat, Thread> {
    map t | t in ts :: if AsleepWriter(ts[t]) then ts[t].(asleep := false) else ts[t]
  }

  function Tagged(who: nat, bytes: seq<bv8>): seq<Tag> {
    seq(|bytes|, i requires 0 <= i < |bytes| => Tag(who, bytes[i]))
  }

  // ---- the step ------------------------------------------------------------------

  function Set(s: State, t: nat, th: Thread): State {
    s.(threads := s.threads[t := th])
  }

  /** Thread `t` may act: it exists, is awake and owes nothing. */
  predicate Free(s: State, t: nat) {
    t in s.threads && s.threads[t].owes == [] && !s.threads[t].asleep
  }

  predicate Holds(s: State, t: nat, fd: nat) {
    fd in s.fds && s.fds[fd].owner == t
  }

  function ReadPass(s: State, t: nat, pending: bool, copyOk: bool): State
    requires t in s.threads && s.threads[t].doing.Reading?
  {
    var th := s.threads[t];
    match TryRead(|s.queue|, s.writers, th.doing.want, pending)
    case Took(n) =>
      var got := s.queue[..n];
      var call := ReadCall(th.doing.asked, got, if copyOk then Count(n) else Fault);
      Set(s.(queue := s.queue[n..], taken := s.taken + Tagged(t, got)), t,
          Ended(th, call).(owes := [WakeWriters, News]))
    case AtEnd => Set(s, t, Ended(th, ReadCall(th.doing.asked, [], Eof)))
    case ReadSignalled => Set(s, t, Ended(th, ReadCall(th.doing.asked, [], Interrupted)))
    case ReadParks => Set(s, t, th.(asleep := true))
  }

  function WritePass(s: State, t: nat, pending: bool): State
    requires t in s.threads && s.threads[t].doing.Writing? && |s.queue| <= PIPE_BUF
    requires s.threads[t].doing.done <= s.threads[t].doing.have <= |s.threads[t].doing.data|
  {
    var th := s.threads[t];
    var d := th.doing;
    match TryWrite(|s.queue|, s.readers, d.have - d.done, pending)
    case NoReaders => Set(s, t, Ended(th, Stopped(d.data, d.done, BrokenPipe)))
    case WriteSignalled => Set(s, t, Ended(th, WriteCall(d.data, d.done, Interrupted)))
    case WriteParks => Set(s, t, th.(asleep := true))
    case Put(n) =>
      var bytes := d.data[d.done..d.done + n];
      Set(s.(queue := s.queue + bytes, accepted := s.accepted + Tagged(t, bytes)), t,
          th.(doing := d.(done := d.done + n), owes := [WakeReaders, News]))
  }

  function Discharged(s: State, t: nat): (u: State)
    requires t in s.threads && s.threads[t].owes != []
    ensures u == s.(threads := u.threads) && u.threads.Keys == s.threads.Keys
  {
    var owes := s.threads[t].owes;
    var u := match owes[0]
             case WakeReaders => s.(threads := WakeAllReaders(s.threads))
             case WakeWriters => s.(threads := WakeAllWriters(s.threads))
             case News => s;
    Set(u, t, u.threads[t].(owes := owes[1..]))
  }

  function Begun(s: State, a: Action): (u: State)
    requires a.Read? || a.Write?
    ensures u == s.(threads := u.threads) && u.threads.Keys == s.threads.Keys
  {
    if Free(s, a.t) && s.threads[a.t].doing.Idle? && Holds(s, a.t, a.fd) then
      var th := s.threads[a.t];
      match a
      case Read(t, fd, n) =>
        if s.fds[fd].end.WriteEnd? then s
        else if n == 0 then Set(s, t, Ended(th, ReadCall(0, [], Count(0))))
        else Set(s, t, th.(doing := Reading(fd, n, Min(n, CHUNK))))
      case Write(t, fd, data) =>
        if s.fds[fd].end.ReadEnd? then s
        else Set(s, t, th.(doing := Writing(fd, data, 0, 0)))
      case _ => s
    else s
  }

  function Copied(s: State, t: nat, ok: bool): (u: State)
    ensures u == s.(threads := u.threads) && u.threads.Keys == s.threads.Keys
  {
    if Free(s, t) && s.threads[t].doing.Writing? then
      var th := s.threads[t];
      var d := th.doing;
      if d.done == d.have < |d.data| then
        if ok then Set(s, t, th.(doing := d.(have := Min(|d.data|, d.done + CHUNK))))
        else Set(s, t, Ended(th, Stopped(d.data, d.done, Fault)))
      else s
    else s
  }

  function Passed(s: State, t: nat, pending: bool, copyOk: bool): State {
    if Free(s, t) && s.threads[t].doing.Reading? then ReadPass(s, t, pending, copyOk)
    else if Free(s, t) && s.threads[t].doing.Writing? && |s.queue| <= PIPE_BUF
            && s.threads[t].doing.done < s.threads[t].doing.have <= |s.threads[t].doing.data|
    then WritePass(s, t, pending)
    else s
  }

  function Finished(s: State, t: nat): (u: State)
    ensures u == s.(threads := u.threads) && u.threads.Keys == s.threads.Keys
  {
    if Free(s, t) && s.threads[t].doing.Writing? && s.threads[t].doing.done == |s.threads[t].doing.data| then
      var d := s.threads[t].doing;
      Set(s, t, Ended(s.threads[t], WriteCall(d.data, d.done, Count(|d.data|))))
    else s
  }

  function Duplicated(s: State, t: nat, fd: nat, copy: nat, heir: nat): State {
    if Free(s, t) && s.threads[t].doing.Idle? && Holds(s, t, fd) && copy !in s.fds then
      var u := s.(fds := s.fds[copy := Fd(s.fds[fd].end, heir)]);
      if s.fds[fd].end.ReadEnd? then u.(readers := s.readers + 1) else u.(writers := s.writers + 1)
    else s
  }

  /** darwin_pipe_drop; the underflow assertions are the two count tests. */
  function Closed(s: State, t: nat, fd: nat): State {
    if Free(s, t) && s.threads[t].doing.Idle? && Holds(s, t, fd)
       && (if s.fds[fd].end.ReadEnd? then s.readers else s.writers) > 0
    then
      var u := s.(fds := s.fds - {fd});
      var v := if s.fds[fd].end.ReadEnd? then u.(readers := s.readers - 1) else u.(writers := s.writers - 1);
      if v.readers == 0 && v.writers == 0 then v.(freed := v.freed + 1)
      else Set(v, t, s.threads[t].(owes := [WakeReaders, WakeWriters, News]))
    else s
  }

  function Step(s: State, a: Action): State {
    match a
    case Read(_, _, _) => Begun(s, a)
    case Write(_, _, _) => Begun(s, a)
    case CopyChunk(t, ok) => Copied(s, t, ok)
    case Pass(t, pending, copyOk) => Passed(s, t, pending, copyOk)
    case Finish(t) => Finished(s, t)
    case Discharge(t) => if t in s.threads && s.threads[t].owes != [] then Discharged(s, t) else s
    case Stray(t) => if t in s.threads then Set(s, t, s.threads[t].(asleep := false)) else s
    case Dup(t, fd, copy, heir) => Duplicated(s, t, fd, copy, heir)
    case Close(t, fd) => Closed(s, t, fd)
  }

  function Run(s: State, acts: seq<Action>): State
    decreases |acts|
  {
    if acts == [] then s else Run(Step(s, acts[0]), acts[1..])
  }

  function BothEnds(r: nat, w: nat, t: nat): map<nat, Fd> {
    map[r := Fd(ReadEnd, t), w := Fd(WriteEnd, t)]
  }

  /** A pipe just made: both descriptors `t`'s, nobody in a call. */
  ghost predicate Init(s: State) {
    && s.queue == [] && s.accepted == [] && s.taken == [] && s.freed == 0
    && s.readers == s.writers == 1
    && (exists r, w, t :: r != w && s.fds == BothEnds(r, w, t))
    && (forall t :: t in s.threads ==> s.threads[t] == Thread(Idle, false, [], []))
  }

  // ---- what every step keeps -------------------------------------------------------

  function Bytes(sent: seq<Tag>): (b: seq<bv8>)
    ensures |b| == |sent|
  {
    seq(|sent|, i requires 0 <= i < |sent| => sent[i].byte)
  }

  /** The part of the stream that came from `t`. */
  function From(sent: seq<Tag>, t: nat): seq<bv8> {
    if sent == [] then []
    else
      var last := sent[|sent| - 1];
      From(sent[..|sent| - 1], t) + if last.who == t then [last.byte] else []
  }

  function CallMoved(c: Call): seq<bv8> {
    if c.WriteCall? && c.moved <= |c.data| then c.data[..c.moved] else []
  }

  /** What the finished writes of a thread put in, one after the other. */
  function Moved(calls: seq<Call>): seq<bv8> {
    if calls == [] then []
    else Moved(calls[..|calls| - 1]) + CallMoved(calls[|calls| - 1])
  }

  /** What the finished reads of a thread took out, one after the other. */
  function TakenBy(calls: seq<Call>): seq<bv8> {
    if calls == [] then []
    else
      var last := calls[|calls| - 1];
      TakenBy(calls[..|calls| - 1]) + if last.ReadCall? then last.bytes else []
  }

  function SentBy(th: Thread): seq<bv8> {
    Moved(th.calls) + if th.doing.Writing? && th.doing.done <= |th.doing.data| then th.doing.data[..th.doing.done] else []
  }

  function Ends(fds: map<nat, Fd>, end: End): set<nat> {
    set fd | fd in fds && fds[fd].end == end
  }

  /** What a call's answer says about the bytes it moved. */
  predicate CallOk(c: Call) {
    match c
    case ReadCall(asked, bytes, result) =>
      && |bytes| <= asked
      && (result == Count(|bytes|) || result == Fault || (bytes == [] && (result == Eof || result == Interrupted)))
    case WriteCall(data, moved, result) =>
      && moved <= |data|
      && (result == Count(moved) || result == Interrupted || (moved == 0 && (result == Fault || result == BrokenPipe)))
  }

  ghost predicate ThreadOk(fds: map<nat, Fd>, t: nat, th: Thread) {
    && (th.asleep ==> !th.doing.Idle? && th.owes == [])
    && (th.doing.Reading? ==> 0 < th.doing.want == Min(th.doing.asked, CHUNK) && th.doing.fd in fds && fds[th.doing.fd] == Fd(ReadEnd, t))
    && (th.doing.Writing? ==>
         && th.doing.done <= th.doing.have <= |th.doing.data|
         && th.doing.fd in fds && fds[th.doing.fd] == Fd(WriteEnd, t))
    && (forall c :: c in th.calls ==> CallOk(c))
  }

  ghost predicate Threads(s: State) {
    forall t :: t in s.threads ==> ThreadOk(s.fds, t, s.threads[t])
  }

  /** Bytes out, then bytes in the ring, are the bytes in. */
  ghost predicate Stream(s: State) {
    |s.queue| <= PIPE_BUF && Bytes(s.taken) + s.queue == Bytes(s.accepted)
  }

  /** Each thread's own bytes are in the stream, in its order, going in and coming out. */
  ghost predicate Order(s: State) {
    forall t :: t in s.threads ==>
                  From(s.accepted, t) == SentBy(s.threads[t]) && From(s.taken, t) == TakenBy(s.threads[t].calls)
  }

  ghost predicate Counts(s: State) {
    && s.readers == |Ends(s.fds, ReadEnd)|
    && s.writers == |Ends(s.fds, WriteEnd)|
    && s.freed == if s.fds == map[] then 1 else 0
  }

  /** A reader would not wait. */
  predicate ReadReady(s: State) {
    s.queue != [] || s.writers == 0
  }

  /** A writer would not wait. */
  predicate WriteReady(s: State) {
    |s.queue| < PIPE_BUF || s.readers == 0
  }

  predicate Owes(s: State, t: nat, d: Duty) {
    t in s.threads && d in s.threads[t].owes
  }

  ghost predicate SomeoneOwes(s: State, d: Duty) {
    exists t :: Owes(s, t, d)
  }

  ghost predicate Wakes(s: State) {
    && (forall t :: t in s.threads && AsleepReader(s.threads[t]) && ReadReady(s) ==> SomeoneOwes(s, WakeReaders))
    && (forall t :: t in s.threads && AsleepWriter(s.threads[t]) && WriteReady(s) ==> SomeoneOwes(s, WakeWriters))
  }

  predicate NoAsleepReader(s: State) {
    forall t :: t in s.threads ==> !AsleepReader(s.threads[t])
  }

  predicate NoAsleepWriter(s: State) {
    forall t :: t in s.threads ==> !AsleepWriter(s.threads[t])
  }

  ghost predicate Inv(s: State) {
    Threads(s) && Stream(s) && Order(s) && Counts(s) && Wakes(s)
  }

  // ---- small facts -----------------------------------------------------------------

  lemma FromSnoc(sent: seq<Tag>, x: Tag, t: nat)
    ensures From(sent + [x], t) == From(sent, t) + if x.who == t then [x.byte] else []
  {
    assert (sent + [x])[..|sent|] == sent;
  }

  lemma {:induction false} FromAppend(sent: seq<Tag>, bytes: seq<bv8>, who: nat, t: nat)
    ensures From(sent + Tagged(who, bytes), t) == From(sent, t) + if who == t then bytes else []
  {
    hide From;
    if bytes == [] {
      assert sent + Tagged(who, bytes) == sent;
    } else {
      var n := |bytes| - 1;
      var before := sent + Tagged(who, bytes[..n]);
      FromAppend(sent, bytes[..n], who, t);
      FromSnoc(before, Tag(who, bytes[n]), t);
      assert sent + Tagged(who, bytes) == before + [Tag(who, bytes[n])];
      assert bytes == bytes[..n] + [bytes[n]];
    }
  }

  lemma BytesAppend(sent: seq<Tag>, bytes: seq<bv8>, who: nat)
    ensures Bytes(sent + Tagged(who, bytes)) == Bytes(sent) + bytes
  {
  }

  lemma MovedAppend(calls: seq<Call>, c: Call)
    ensures Moved(calls + [c]) == Moved(calls) + CallMoved(c)
    ensures TakenBy(calls + [c]) == TakenBy(calls) + if c.ReadCall? then c.bytes else []
  {
    assert (calls + [c])[..|calls|] == calls;
  }

  /** A duty somebody has stays somebody's if the others are untouched and the one
      who moved drops none. */
  lemma DutyStays(s: State, t: State, d: Duty)
    requires forall k :: Owes(s, k, d) ==> Owes(t, k, d)
    ensures SomeoneOwes(s, d) ==> SomeoneOwes(t, d)
  {
    if SomeoneOwes(s, d) {
      var k :| Owes(s, k, d);
      assert Owes(t, k, d);
    }
  }

  /** A thread's private move: the ring and the descriptors stay. */
  lemma SetKeeps(s: State, t: nat, th: Thread)
    requires Inv(s) && t in s.threads
    requires ThreadOk(s.fds, t, th)
    requires SentBy(th) == SentBy(s.threads[t]) && TakenBy(th.calls) == TakenBy(s.threads[t].calls)
    requires WakeReaders in s.threads[t].owes ==> WakeReaders in th.owes || NoAsleepReader(s)
    requires WakeWriters in s.threads[t].owes ==> WakeWriters in th.owes || NoAsleepWriter(s)
    requires AsleepReader(th) ==> AsleepReader(s.threads[t]) || !ReadReady(s)
    requires AsleepWriter(th) ==> AsleepWriter(s.threads[t]) || !WriteReady(s)
    ensures Inv(Set(s, t, th))
  {
    hide Moved, TakenBy, SentBy, ThreadOk, From;
    var u := Set(s, t, th);
    if WakeReaders in s.threads[t].owes ==> WakeReaders in th.owes { DutyStays(s, u, WakeReaders); }
    if WakeWriters in s.threads[t].owes ==> WakeWriters in th.owes { DutyStays(s, u, WakeWriters); }
  }

  lemma EndedOk(s: State, t: nat, c: Call)
    requires Inv(s) && t in s.threads && s.threads[t].owes == [] && CallOk(c)
    requires CallMoved(c) ==
             if s.threads[t].doing.Writing? then s.threads[t].doing.data[..s.threads[t].doing.done] else []
    requires c.ReadCall? ==> c.bytes == []
    ensures Inv(Set(s, t, Ended(s.threads[t], c)))
  {
    hide Moved, TakenBy, From, CallOk, Order, Stream, Counts, Wakes;
    var th := s.threads[t];
    MovedAppend(th.calls, c);
    assert ThreadOk(s.fds, t, th);
    SetKeeps(s, t, Ended(th, c));
  }

  // ---- one action at a time --------------------------------------------------------

  lemma BegunKeeps(s: State, a: Action)
    requires Inv(s) && (a.Read? || a.Write?)
    ensures Inv(Begun(s, a))
  {
    hide Moved, TakenBy, From, CallOk, Order, Stream, Counts, Wakes;
    if Begun(s, a) != s {
      var th := s.threads[a.t];
      assert ThreadOk(s.fds, a.t, th);
      if a.Read? && a.n == 0 {
        assert CallOk(ReadCall(0, [], Count(0))) by { ReadAnswers(0, [], Count(0)); }
        EndedOk(s, a.t, ReadCall(0, [], Count(0)));
      } else {
        SetKeeps(s, a.t, Begun(s, a).threads[a.t]);
      }
    }
  }

  lemma ReadAnswers(asked: nat, bytes: seq<bv8>, r: Result)
    requires |bytes| <= asked
    requires r == Count(|bytes|) || r == Fault || (bytes == [] && (r == Eof || r == Interrupted))
    ensures CallOk(ReadCall(asked, bytes, r))
  {
  }

  lemma WriteAnswers(data: seq<bv8>, moved: nat, r: Result)
    requires moved <= |data|
    requires r == Count(moved) || r == Interrupted || (moved == 0 && (r == Fault || r == BrokenPipe))
    ensures CallOk(WriteCall(data, moved, r))
  {
  }

  lemma CopiedKeeps(s: State, t: nat, ok: bool)
    requires Inv(s)
    ensures Inv(Copied(s, t, ok))
  {
    hide Moved, TakenBy, From, CallOk, Order, Stream, Counts, Wakes;
    if Copied(s, t, ok) != s {
      var th := s.threads[t];
      assert ThreadOk(s.fds, t, th);
      if ok {
        SetKeeps(s, t, Copied(s, t, ok).threads[t]);
      } else {
        var c := Stopped(th.doing.data, th.doing.done, Fault);
        WriteAnswers(c.data, c.moved, c.result);
        EndedOk(s, t, c);
      }
    }
  }

  lemma FinishedKeeps(s: State, t: nat)
    requires Inv(s)
    ensures Inv(Finished(s, t))
  {
    hide Moved, TakenBy, From, CallOk, Order, Stream, Counts, Wakes;
    if Finished(s, t) != s {
      var d := s.threads[t].doing;
      WriteAnswers(d.data, d.done, Count(d.done));
      EndedOk(s, t, WriteCall(d.data, d.done, Count(|d.data|)));
    }
  }

  /** A read that finds bytes. */
  lemma TookKeeps(s: State, t: nat, n: nat, r: Result)
    requires Inv(s) && Free(s, t) && s.threads[t].doing.Reading?
    requires n <= |s.queue| && n <= s.threads[t].doing.asked && (r == Count(n) || r == Fault)
    ensures Inv(Set(s.(queue := s.queue[n..], taken := s.taken + Tagged(t, s.queue[..n])), t,
                    Ended(s.threads[t], ReadCall(s.threads[t].doing.asked, s.queue[..n], r)).(owes := [WakeWriters, News])))
  {
    hide Moved, TakenBy, From, CallOk, Bytes, Tagged;
    var th := s.threads[t];
    var c := ReadCall(th.doing.asked, s.queue[..n], r);
    ReadAnswers(th.doing.asked, c.bytes, r);
    MovedAppend(th.calls, c);
    var u := Set(s.(queue := s.queue[n..], taken := s.taken + Tagged(t, c.bytes)), t,
                 Ended(th, c).(owes := [WakeWriters, News]));
    BytesAppend(s.taken, c.bytes, t);
    assert Bytes(u.taken) + u.queue == Bytes(s.taken) + s.queue;
    forall k | k in u.threads
      ensures From(u.taken, k) == TakenBy(u.threads[k].calls)
    {
      FromAppend(s.taken, c.bytes, t, k);
    }
    DutyStays(s, u, WakeReaders);
    assert Owes(u, t, WakeWriters);
  }

  lemma ReadPassKeeps(s: State, t: nat, pending: bool, copyOk: bool)
    requires Inv(s) && Free(s, t) && s.threads[t].doing.Reading?
    ensures Inv(ReadPass(s, t, pending, copyOk))
  {
    hide Moved, TakenBy, From, CallOk, Order, Stream, Counts, Wakes;
    var th := s.threads[t];
    assert ThreadOk(s.fds, t, th);
    match TryRead(|s.queue|, s.writers, th.doing.want, pending)
    case Took(n) => TookKeeps(s, t, n, if copyOk then Count(n) else Fault);
    case AtEnd =>
      ReadAnswers(th.doing.asked, [], Eof);
      EndedOk(s, t, ReadCall(th.doing.asked, [], Eof));
    case ReadSignalled =>
      ReadAnswers(th.doing.asked, [], Interrupted);
      EndedOk(s, t, ReadCall(th.doing.asked, [], Interrupted));
    case ReadParks => SetKeeps(s, t, th.(asleep := true));
  }

  /** The writer's own bytes grow by what went in, nobody else's. */
  lemma PutOrder(s: State, u: State, t: nat, bytes: seq<bv8>)
    requires Order(s) && t in s.threads && s.threads[t].doing.Writing?
    requires var d := s.threads[t].doing;
             && d.done + |bytes| <= |d.data| && bytes == d.data[d.done..d.done + |bytes|]
             && u.accepted == s.accepted + Tagged(t, bytes) && u.taken == s.taken
             && u.threads.Keys == s.threads.Keys
             && (forall k :: k in s.threads && k != t ==> u.threads[k] == s.threads[k])
             && u.threads[t].calls == s.threads[t].calls && u.threads[t].doing == d.(done := d.done + |bytes|)
    ensures Order(u)
  {
    hide Moved, TakenBy, From, Tagged;
    var d := s.threads[t].doing;
    assert d.data[..d.done] + bytes == d.data[..d.done + |bytes|];
    forall k | k in u.threads
      ensures From(u.accepted, k) == SentBy(u.threads[k]) && From(u.taken, k) == TakenBy(u.threads[k].calls)
    {
      FromAppend(s.accepted, bytes, t, k);
      assert From(s.accepted, k) == SentBy(s.threads[k]);
    }
  }

  /** A writer that put something owes the readers their wakeup; the writers' stands. */
  lemma PutWakes(s: State, u: State, t: nat)
    requires Wakes(s) && Free(s, t)
    requires t in u.threads && u.threads == s.threads[t := u.threads[t]]
    requires !u.threads[t].asleep && WakeReaders in u.threads[t].owes
    requires u.readers == s.readers && |s.queue| <= |u.queue|
    ensures Wakes(u)
  {
    DutyStays(s, u, WakeWriters);
    assert Owes(u, t, WakeReaders);
  }

  /** A write that finds room. */
  lemma PutKeeps(s: State, t: nat, n: nat)
    requires Inv(s) && Free(s, t) && s.threads[t].doing.Writing?
    requires s.threads[t].doing.done + n <= s.threads[t].doing.have
    requires |s.queue| + n <= PIPE_BUF
    ensures var d := s.threads[t].doing;
            var bytes := d.data[d.done..d.done + n];
            Inv(Set(s.(queue := s.queue + bytes, accepted := s.accepted + Tagged(t, bytes)), t,
                    s.threads[t].(doing := d.(done := d.done + n), owes := [WakeReaders, News])))
  {
    hide Moved, TakenBy, From, CallOk, Bytes, Tagged, Order, Wakes;
    var d := s.threads[t].doing;
    var bytes := d.data[d.done..d.done + n];
    var u := Set(s.(queue := s.queue + bytes, accepted := s.accepted + Tagged(t, bytes)), t,
                 s.threads[t].(doing := d.(done := d.done + n), owes := [WakeReaders, News]));
    BytesAppend(s.accepted, bytes, t);
    assert Bytes(u.taken) + u.queue == Bytes(s.taken) + s.queue + bytes;
    PutOrder(s, u, t, bytes);
    PutWakes(s, u, t);
  }

  lemma WritePassKeeps(s: State, t: nat, pending: bool)
    requires Inv(s) && Free(s, t) && s.threads[t].doing.Writing? && |s.queue| <= PIPE_BUF
    requires s.threads[t].doing.done < s.threads[t].doing.have <= |s.threads[t].doing.data|
    ensures Inv(WritePass(s, t, pending))
  {
    hide Moved, TakenBy, From, CallOk, Order, Stream, Counts, Wakes;
    var th := s.threads[t];
    var d := th.doing;
    assert ThreadOk(s.fds, t, th);
    match TryWrite(|s.queue|, s.readers, d.have - d.done, pending)
    case NoReaders =>
      var c := Stopped(d.data, d.done, BrokenPipe);
      WriteAnswers(c.data, c.moved, c.result);
      EndedOk(s, t, c);
    case WriteSignalled =>
      WriteAnswers(d.data, d.done, Interrupted);
      EndedOk(s, t, WriteCall(d.data, d.done, Interrupted));
    case WriteParks => SetKeeps(s, t, th.(asleep := true));
    case Put(n) => PutKeeps(s, t, n);
  }

  /** `u` is `s` with some threads woken. */
  ghost predicate Woken(s: State, u: State) {
    && u == s.(threads := u.threads)
    && u.threads.Keys == s.threads.Keys
    && forall t :: t in s.threads ==> u.threads[t] == s.threads[t] || u.threads[t] == s.threads[t].(asleep := false)
  }

  /** Waking keeps everything but the sleepers. */
  lemma WokenKeeps(s: State, u: State)
    requires Inv(s) && Woken(s, u)
    ensures Inv(u)
  {
    hide Moved, TakenBy, From, CallOk, Bytes, Ends, ThreadOk, SentBy;
    forall t | t in u.threads
      ensures ThreadOk(u.fds, t, u.threads[t]) && SentBy(u.threads[t]) == SentBy(s.threads[t])
      ensures u.threads[t].calls == s.threads[t].calls
    {
      assert ThreadOk(s.fds, t, s.threads[t]);
      WokenThread(s.fds, t, s.threads[t]);
    }
    DutyStays(s, u, WakeReaders);
    DutyStays(s, u, WakeWriters);
  }

  lemma WokenThread(fds: map<nat, Fd>, t: nat, th: Thread)
    requires ThreadOk(fds, t, th)
    ensures ThreadOk(fds, t, th.(asleep := false)) && SentBy(th.(asleep := false)) == SentBy(th)
  {
    hide CallOk, Moved;
  }

  lemma DischargedKeeps(s: State, t: nat)
    requires Inv(s) && t in s.threads && s.threads[t].owes != []
    ensures Inv(Discharged(s, t))
  {
    hide Moved, TakenBy, From, CallOk, Bytes, Order, Stream, Counts, Wakes;
    var owes := s.threads[t].owes;
    var u := match owes[0]
             case WakeReaders => s.(threads := WakeAllReaders(s.threads))
             case WakeWriters => s.(threads := WakeAllWriters(s.threads))
             case News => s;
    WokenKeeps(s, u);
    assert ThreadOk(u.fds, t, u.threads[t]);
    SetKeeps(u, t, u.threads[t].(owes := owes[1..]));
  }

  // ---- descriptors come and go -----------------------------------------------------

  /** A thread's call stays sound while its own descriptor lives. */
  lemma OtherFds(fds: map<nat, Fd>, after: map<nat, Fd>, t: nat, th: Thread)
    requires ThreadOk(fds, t, th)
    requires !th.doing.Idle? ==> th.doing.fd in after && after[th.doing.fd] == fds[th.doing.fd]
    ensures ThreadOk(after, t, th)
  {
    hide CallOk;
  }

  lemma EndsAdded(fds: map<nat, Fd>, fd: nat, f: Fd)
    requires fd !in fds
    ensures fd !in Ends(fds, f.end) && Ends(fds[fd := f], f.end) == Ends(fds, f.end) + {fd}
    ensures forall e :: e != f.end ==> Ends(fds[fd := f], e) == Ends(fds, e)
  {
  }

  lemma EndsRemoved(fds: map<nat, Fd>, fd: nat)
    requires fd in fds
    ensures fd in Ends(fds, fds[fd].end) && Ends(fds - {fd}, fds[fd].end) == Ends(fds, fds[fd].end) - {fd}
    ensures forall e :: e != fds[fd].end ==> Ends(fds - {fd}, e) == Ends(fds, e)
  {
  }

  lemma DuplicatedCounts(s: State, t: nat, fd: nat, copy: nat, heir: nat)
    requires Counts(s)
    ensures Counts(Duplicated(s, t, fd, copy, heir))
  {
    hide Ends;
    var u := Duplicated(s, t, fd, copy, heir);
    if u != s {
      EndsAdded(s.fds, copy, u.fds[copy]);
      assert copy in u.fds;
    }
  }

  lemma DuplicatedThreads(s: State, t: nat, fd: nat, copy: nat, heir: nat)
    requires Threads(s)
    ensures Threads(Duplicated(s, t, fd, copy, heir))
  {
    hide ThreadOk;
    var u := Duplicated(s, t, fd, copy, heir);
    forall k | k in u.threads
      ensures ThreadOk(u.fds, k, u.threads[k])
    {
      InCall(s, k);
      OtherFds(s.fds, u.fds, k, s.threads[k]);
    }
  }

  lemma DuplicatedKeeps(s: State, t: nat, fd: nat, copy: nat, heir: nat)
    requires Inv(s)
    ensures Inv(Duplicated(s, t, fd, copy, heir))
  {
    hide From, Bytes, Ends, SentBy, Threads, Counts;
    var u := Duplicated(s, t, fd, copy, heir);
    DuplicatedCounts(s, t, fd, copy, heir);
    DuplicatedThreads(s, t, fd, copy, heir);
    DutyStays(s, u, WakeReaders);
    DutyStays(s, u, WakeWriters);
  }

  /** A thread inside a call holds a live descriptor of the right end. */
  lemma InCall(s: State, t: nat)
    requires Threads(s) && t in s.threads
    ensures !s.threads[t].doing.Idle? ==>
              && Holds(s, t, s.threads[t].doing.fd)
              && s.fds[s.threads[t].doing.fd].end == if s.threads[t].doing.Reading? then ReadEnd else WriteEnd
  {
    hide CallOk;
    assert ThreadOk(s.fds, t, s.threads[t]);
  }

  /** No descriptor, no count: the pipe is dead exactly when its last one goes. */
  lemma DeadMeansNone(fds: map<nat, Fd>)
    ensures Ends(fds, ReadEnd) == {} && Ends(fds, WriteEnd) == {} <==> fds == map[]
  {
    if fds != map[] {
      var fd :| fd in fds;
      assert fd in Ends(fds, fds[fd].end);
    }
  }

  lemma ClosedCounts(s: State, t: nat, fd: nat)
    requires Counts(s)
    ensures Counts(Closed(s, t, fd))
  {
    hide Ends;
    var u := Closed(s, t, fd);
    if u != s {
      EndsRemoved(s.fds, fd);
      DeadMeansNone(u.fds);
      assert fd in s.fds;
    }
  }

  lemma ClosedWakes(s: State, t: nat, fd: nat)
    requires Inv(s)
    ensures Wakes(Closed(s, t, fd))
  {
    hide Ends, Order, Stream, ThreadOk;
    var u := Closed(s, t, fd);
    if u != s {
      ClosedCounts(s, t, fd);
      ClosedThreads(s, t, fd);
      DeadMeansNone(u.fds);
      if u.fds != map[] {
        assert Owes(u, t, WakeReaders) && Owes(u, t, WakeWriters);
      } else {
        NobodyIn(u);
      }
    }
  }

  lemma ClosedKeeps(s: State, t: nat, fd: nat)
    requires Inv(s)
    ensures Inv(Closed(s, t, fd))
  {
    hide Moved, TakenBy, From, CallOk, Bytes, ThreadOk, Ends, Wakes, Counts, Threads;
    ClosedThreads(s, t, fd);
    ClosedCounts(s, t, fd);
    ClosedWakes(s, t, fd);
  }

  lemma ClosedThreads(s: State, t: nat, fd: nat)
    requires Inv(s)
    ensures Threads(Closed(s, t, fd))
  {
    hide Moved, TakenBy, From, CallOk, Bytes, Ends, Order, Stream, Wakes, Counts;
    var u := Closed(s, t, fd);
    forall k | k in u.threads
      ensures ThreadOk(u.fds, k, u.threads[k])
    {
      InCall(s, k);
      OtherFds(s.fds, s.fds, k, s.threads[k]);
      if u != s { OtherFds(s.fds, u.fds, k, s.threads[k]); }
    }
  }

  lemma NobodyIn(s: State)
    requires Threads(s) && s.fds == map[]
    ensures NoAsleepReader(s) && NoAsleepWriter(s)
  {
    hide CallOk;
    forall t | t in s.threads
      ensures !AsleepReader(s.threads[t]) && !AsleepWriter(s.threads[t])
    {
      InCall(s, t);
    }
  }

  // ---- whole runs ------------------------------------------------------------------

  lemma StepKeeps(s: State, a: Action)
    requires Inv(s)
    ensures Inv(Step(s, a))
  {
    hide Threads, Stream, Order, Counts, Wakes, Begun, Copied, Finished, Discharged, Duplicated, Closed, ReadPass, WritePass;
    match a
    case Read(_, _, _) => BegunKeeps(s, a);
    case Write(_, _, _) => BegunKeeps(s, a);
    case CopyChunk(t, ok) => CopiedKeeps(s, t, ok);
    case Pass(t, pending, copyOk) =>
      if Free(s, t) && s.threads[t].doing.Reading? { ReadPassKeeps(s, t, pending, copyOk); }
      else if Passed(s, t, pending, copyOk) != s { WritePassKeeps(s, t, pending); }
    case Finish(t) => FinishedKeeps(s, t);
    case Discharge(t) => if t in s.threads && s.threads[t].owes != [] { DischargedKeeps(s, t); }
    case Stray(t) => if t in s.threads { WokenKeeps(s, Step(s, a)); }
    case Dup(t, fd, copy, heir) => DuplicatedKeeps(s, t, fd, copy, heir);
    case Close(t, fd) => ClosedKeeps(s, t, fd);
  }

  lemma InitHolds(s: State)
    requires Init(s)
    ensures Inv(s)
  {
    var r, w, t :| r != w && s.fds == BothEnds(r, w, t);
    var one: map<nat, Fd> := map[];
    assert Ends(one, ReadEnd) == Ends(one, WriteEnd) == {};
    EndsAdded(one, r, Fd(ReadEnd, t));
    EndsAdded(one[r := Fd(ReadEnd, t)], w, Fd(WriteEnd, t));
    assert s.fds == one[r := Fd(ReadEnd, t)][w := Fd(WriteEnd, t)];
    assert r in s.fds;
  }

  lemma {:induction false} RunKeeps(s: State, acts: seq<Action>)
    requires Inv(s)
    ensures Inv(Run(s, acts))
    decreases |acts|
  {
    hide Inv, Step;
    if acts != [] {
      StepKeeps(s, acts[0]);
      RunKeeps(Step(s, acts[0]), acts[1..]);
    }
  }

  // ---- the promises ----------------------------------------------------------------

  /** The stream: whatever the interleaving, the bytes out and the bytes in the ring
      are the bytes in, the ring never overfills, and every thread's writes went in,
      and its reads came out, in the order of its calls. */
  lemma StreamOverRuns(s: State, acts: seq<Action>)
    requires Init(s)
    ensures var u := Run(s, acts);
            && |u.queue| <= PIPE_BUF
            && Bytes(u.taken) + u.queue == Bytes(u.accepted)
            && forall t :: t in u.threads ==>
                 From(u.accepted, t) == SentBy(u.threads[t]) && From(u.taken, t) == TakenBy(u.threads[t].calls)
  {
    InitHolds(s);
    RunKeeps(s, acts);
  }

  /** The lifetime: the two counts are the live descriptors of each end, the pipe is
      freed once, with the last of them, and no thread inside a call sees it freed. */
  lemma LifetimeOverRuns(s: State, acts: seq<Action>)
    requires Init(s)
    ensures var u := Run(s, acts);
            && u.readers == |Ends(u.fds, ReadEnd)| && u.writers == |Ends(u.fds, WriteEnd)|
            && u.freed <= 1 && (u.freed == 1 <==> u.fds == map[])
            && (forall t :: t in u.threads && !u.threads[t].doing.Idle? ==> u.freed == 0)
  {
    InitHolds(s);
    RunKeeps(s, acts);
    var u := Run(s, acts);
    forall t | t in u.threads && !u.threads[t].doing.Idle?
      ensures u.freed == 0
    {
      InCall(u, t);
    }
  }

  /** A close never takes a count below zero: the assertions in the drop hold. */
  lemma NoUnderflow(s: State, acts: seq<Action>, fd: nat)
    requires Init(s)
    ensures var u := Run(s, acts);
            fd in u.fds ==> (if u.fds[fd].end.ReadEnd? then u.readers else u.writers) > 0
  {
    InitHolds(s);
    RunKeeps(s, acts);
    var u := Run(s, acts);
    if fd in u.fds {
      assert fd in Ends(u.fds, u.fds[fd].end);
    }
  }

  /** No side sleeps through its condition: a sleeper that could go on has a wakeup
      coming from a thread that still owes it. */
  lemma WakeIsOwed(s: State, acts: seq<Action>, t: nat)
    requires Init(s)
    ensures var u := Run(s, acts);
            t in u.threads ==>
              && (AsleepReader(u.threads[t]) && (u.queue != [] || u.writers == 0) ==> SomeoneOwes(u, WakeReaders))
              && (AsleepWriter(u.threads[t]) && (|u.queue| < PIPE_BUF || u.readers == 0) ==> SomeoneOwes(u, WakeWriters))
  {
    hide Threads, Stream, Order, Counts, SomeoneOwes;
    InitHolds(s);
    RunKeeps(s, acts);
  }

  predicate AllDischarged(s: State) {
    forall t :: t in s.threads ==> s.threads[t].owes == []
  }

  /** Sleep: once every wakeup owed has been made, a sleeping reader faces an empty
      ring with a writer left, a sleeping writer a full one with a reader left; so
      the two sides never sleep on each other. */
  lemma NobodySleepsForNothing(s: State, acts: seq<Action>, t: nat, k: nat)
    requires Init(s)
    requires AllDischarged(Run(s, acts)) && t in Run(s, acts).threads && k in Run(s, acts).threads
    ensures var u := Run(s, acts);
            && (AsleepReader(u.threads[t]) ==> u.queue == [] && u.writers > 0)
            && (AsleepWriter(u.threads[t]) ==> |u.queue| == PIPE_BUF && u.readers > 0)
            && !(AsleepReader(u.threads[t]) && AsleepWriter(u.threads[k]))
  {
    InitHolds(s);
    RunKeeps(s, acts);
    var u := Run(s, acts);
    assert forall j, d :: !Owes(u, j, d);
  }

  // ---- the two ends of the story ---------------------------------------------------

  /** With an end gone, nobody is in a call on it. */
  lemma NobodyOn(s: State, end: End, t: nat)
    requires Threads(s) && t in s.threads && Ends(s.fds, end) == {}
    ensures if end.ReadEnd? then !s.threads[t].doing.Reading? else !s.threads[t].doing.Writing?
    ensures forall fd :: fd in s.fds ==> s.fds[fd].end != end
  {
    hide ThreadOk;
    InCall(s, t);
    forall fd | fd in s.fds
      ensures s.fds[fd].end != end
    {
      assert s.fds[fd].end == end ==> fd in Ends(s.fds, end);
    }
  }

  /** No write end left: no step can bring one back or let a byte in. */
  lemma NoWriterStep(s: State, a: Action)
    requires Inv(s) && s.writers == 0
    ensures Step(s, a).writers == 0 && Step(s, a).accepted == s.accepted
  {
    hide ThreadOk, From, Bytes, SentBy, Moved, Order, Stream, Wakes, Ends, Threads;
    if a.t in s.threads { NobodyOn(s, WriteEnd, a.t); }
  }

  /** No read end left: no step can bring one back, let a byte in or take one out. */
  lemma NoReaderStep(s: State, a: Action)
    requires Inv(s) && s.readers == 0
    ensures Step(s, a).readers == 0 && Step(s, a).accepted == s.accepted && Step(s, a).taken == s.taken
  {
    hide ThreadOk, From, Bytes, SentBy, Moved, Order, Stream, Wakes, Ends, Threads;
    if a.t in s.threads { NobodyOn(s, ReadEnd, a.t); }
  }

  /** A broken pipe stays broken: nothing written after the last reader went is ever
      accepted. */
  lemma {:induction false} BrokenPipeIsFinal(s: State, acts: seq<Action>)
    requires Inv(s) && s.readers == 0
    ensures var u := Run(s, acts); u.readers == 0 && u.accepted == s.accepted && u.taken == s.taken
    decreases |acts|
  {
    hide Step, Inv;
    if acts != [] {
      StepKeeps(s, acts[0]);
      NoReaderStep(s, acts[0]);
      BrokenPipeIsFinal(Step(s, acts[0]), acts[1..]);
    }
  }

  /** What a read answers at the end of the stream is the truth for ever: the readers
      have had every byte that was ever accepted, and no later run brings another. */
  lemma {:induction false} EndOfStreamIsFinal(s: State, acts: seq<Action>)
    requires Inv(s) && s.queue == [] && s.writers == 0
    ensures var u := Run(s, acts);
            u.queue == [] && u.writers == 0 && u.accepted == s.accepted && u.taken == s.taken && Bytes(s.taken) == Bytes(s.accepted)
    decreases |acts|
  {
    hide Step, Threads, Order, Counts, Wakes, Bytes;
    if acts != [] {
      var u := Step(s, acts[0]);
      StepKeeps(s, acts[0]);
      NoWriterStep(s, acts[0]);
      StepTaken(s, acts[0]);
      assert |Bytes(u.taken) + u.queue| == |Bytes(s.taken) + s.queue|;
      assert u.taken == s.taken;
      EndOfStreamIsFinal(u, acts[1..]);
    }
  }

  /** What has been taken stays taken. */
  lemma StepTaken(s: State, a: Action)
    ensures s.taken <= Step(s, a).taken
  {
  }

  /** A read answers end of stream exactly when the ring is empty and no write
      descriptor is left. */
  lemma EofExactly(s: State, t: nat, pending: bool, copyOk: bool)
    requires Inv(s) && Free(s, t) && s.threads[t].doing.Reading?
    ensures Step(s, Pass(t, pending, copyOk)).threads[t].calls == s.threads[t].calls + [ReadCall(s.threads[t].doing.asked, [], Eof)]
            <==> s.queue == [] && Ends(s.fds, WriteEnd) == {}
  {
    hide ThreadOk, From, Bytes, SentBy, Moved, Order, Wakes, Ends;
    var u := Step(s, Pass(t, pending, copyOk));
    if u.threads[t].calls == s.threads[t].calls + [ReadCall(s.threads[t].doing.asked, [], Eof)] {
      assert u.threads[t].calls[|s.threads[t].calls|] == ReadCall(s.threads[t].doing.asked, [], Eof);
    }
  }

  // ---- readiness news --------------------------------------------------------------

  predicate Ready(s: State, fd: nat) {
    fd in s.fds && if s.fds[fd].end.ReadEnd? then ReadReady(s) else WriteReady(s)
  }

  lemma PassNews(s: State, t: nat, pending: bool, copyOk: bool)
    ensures var u := Passed(s, t, pending, copyOk);
            u.readers == s.readers && u.writers == s.writers && (u.queue == s.queue || Owes(u, t, News))
  {
  }

  lemma CloseNews(s: State, t: nat, fd: nat)
    ensures var u := Closed(s, t, fd);
            u.queue == s.queue && (u == s || Owes(u, t, News) || (u.readers == 0 && u.writers == 0))
  {
  }

  /** Only a read, a write that gets in, and a close change what readiness looks at. */
  lemma WhatChangesReadiness(s: State, a: Action)
    requires Step(s, a).queue != s.queue || Step(s, a).readers < s.readers || Step(s, a).writers < s.writers
    ensures Owes(Step(s, a), a.t, News) || (Step(s, a).readers == 0 && Step(s, a).writers == 0)
  {
    hide Begun, Copied, Finished, Discharged, Passed, Closed, Owes;
    if a.Pass? { PassNews(s, a.t, a.pending, a.copyOk); }
    if a.Close? { CloseNews(s, a.t, a.fd); }
  }

  lemma SameDescriptor(s: State, a: Action, fd: nat)
    ensures fd in s.fds && fd in Step(s, a).fds ==> Step(s, a).fds[fd] == s.fds[fd]
  {
    hide Begun, Copied, Finished, Discharged;
  }

  /** Whatever step makes a descriptor ready leaves its thread owing the news. */
  lemma ReadinessIsAnnounced(s: State, a: Action, fd: nat)
    requires Inv(s) && fd in s.fds && !Ready(s, fd) && Ready(Step(s, a), fd)
    ensures Owes(Step(s, a), a.t, News)
  {
    hide Threads, Order, Wakes, Ends, Step;
    var u := Step(s, a);
    SameDescriptor(s, a, fd);
    WhatChangesReadiness(s, a);
    StepKeeps(s, a);
    DeadMeansNone(u.fds);
  }

  // ---- what each call does ----------------------------------------------------------

  /** The call of `t` that ends in `u` is `c`, and `t` owes `owes`. */
  ghost predicate EndsWith(s: State, u: State, t: nat, c: Call, owes: seq<Duty>)
    requires t in s.threads
  {
    u.threads == s.threads[t := Thread(Idle, false, owes, s.threads[t].calls + [c])]
  }

  function Least(a: nat, b: nat, c: nat): nat {
    if a <= b && a <= c then a else if b <= c then b else c
  }

  /** A pass of a read: what the ring has, up to the length asked for and 512, the oldest
      bytes, whatever else is the case; else end of stream when no write descriptor is
      left; else a pending signal; else sleep. */
  lemma ReadPassExactly(s: State, t: nat, pending: bool, copyOk: bool)
    requires Inv(s) && Free(s, t) && s.threads[t].doing.Reading?
    ensures var u := Step(s, Pass(t, pending, copyOk));
            var asked := s.threads[t].doing.asked;
            var k := Least(asked, 512, |s.queue|);
            && u.accepted == s.accepted && u.fds == s.fds
            && (s.queue != [] ==>
                  && u.queue == s.queue[k..] && u.taken == s.taken + Tagged(t, s.queue[..k])
                  && EndsWith(s, u, t, ReadCall(asked, s.queue[..k], if copyOk then Count(k) else Fault), [WakeWriters, News]))
            && (s.queue == [] ==>
                  && u.queue == [] && u.taken == s.taken
                  && (if Ends(s.fds, WriteEnd) == {} then EndsWith(s, u, t, ReadCall(asked, [], Eof), [])
                      else if pending then EndsWith(s, u, t, ReadCall(asked, [], Interrupted), [])
                      else u.threads == s.threads[t := s.threads[t].(asleep := true)]))
  {
    hide Order, Stream, Wakes, Ends, CallOk, Tagged, ReadPass, EndsWith;
    assert ThreadOk(s.fds, t, s.threads[t]);
    if s.queue != [] { ReadTakes(s, t, pending, copyOk); } else { ReadFindsNone(s, t, pending, copyOk); }
  }

  lemma ReadTakes(s: State, t: nat, pending: bool, copyOk: bool)
    requires t in s.threads && s.threads[t].doing.Reading? && !s.threads[t].asleep && s.queue != []
    requires s.threads[t].doing.want == Min(s.threads[t].doing.asked, CHUNK)
    ensures var u := ReadPass(s, t, pending, copyOk);
            var asked := s.threads[t].doing.asked;
            var k := Least(asked, 512, |s.queue|);
            && u.accepted == s.accepted && u.fds == s.fds
            && u.queue == s.queue[k..] && u.taken == s.taken + Tagged(t, s.queue[..k])
            && EndsWith(s, u, t, ReadCall(asked, s.queue[..k], if copyOk then Count(k) else Fault), [WakeWriters, News])
  {
    hide Tagged;
  }

  lemma ReadFindsNone(s: State, t: nat, pending: bool, copyOk: bool)
    requires t in s.threads && s.threads[t].doing.Reading? && Free(s, t) && s.queue == []
    ensures var u := ReadPass(s, t, pending, copyOk);
            var asked := s.threads[t].doing.asked;
            && u.accepted == s.accepted && u.fds == s.fds && u.queue == [] && u.taken == s.taken
            && if s.writers == 0 then EndsWith(s, u, t, ReadCall(asked, [], Eof), [])
               else if pending then EndsWith(s, u, t, ReadCall(asked, [], Interrupted), [])
               else u.threads == s.threads[t := s.threads[t].(asleep := true)]
  {
    hide Tagged;
  }

  /** A pass of a write: no read descriptor left ends it with what moved, or EPIPE; a full
      ring with a signal, or sleep; else as much of the chunk as there is room for goes in
      behind what is there. */
  lemma WritePassExactly(s: State, t: nat, pending: bool, copyOk: bool)
    requires Inv(s) && Free(s, t) && s.threads[t].doing.Writing? && s.threads[t].doing.done < s.threads[t].doing.have
    ensures var u := Step(s, Pass(t, pending, copyOk));
            var d := s.threads[t].doing;
            && d.have <= |d.data| && |s.queue| <= 4096 && u.taken == s.taken && u.fds == s.fds
            && (Ends(s.fds, ReadEnd) == {} ==>
                  && u.queue == s.queue
                  && EndsWith(s, u, t, WriteCall(d.data, d.done, if d.done > 0 then Count(d.done) else BrokenPipe), []))
            && (Ends(s.fds, ReadEnd) != {} && |s.queue| == 4096 ==>
                  && u.queue == s.queue
                  && (if pending then EndsWith(s, u, t, WriteCall(d.data, d.done, Interrupted), [])
                      else u.threads == s.threads[t := s.threads[t].(asleep := true)]))
            && (Ends(s.fds, ReadEnd) != {} && |s.queue| < 4096 ==>
                  var k := Least(d.have - d.done, 4096 - |s.queue|, |d.data|);
                  var bytes := d.data[d.done..d.done + k];
                  && u.queue == s.queue + bytes && u.accepted == s.accepted + Tagged(t, bytes)
                  && u.threads == s.threads[t := s.threads[t].(doing := d.(done := d.done + k), owes := [WakeReaders, News])])
  {
    hide Order, Wakes, Ends, CallOk, Tagged, Bytes;
    assert ThreadOk(s.fds, t, s.threads[t]);
  }

  /** The next chunk of a write is at most 512 bytes; a copy-in that fails ends the write
      with what moved, or EFAULT; and a write of which all is in is answered its length. */
  lemma WriteGoesOn(s: State, t: nat, ok: bool)
    requires Inv(s) && Free(s, t) && s.threads[t].doing.Writing?
    ensures var d := s.threads[t].doing;
            var u := Step(s, CopyChunk(t, ok));
            && (d.done == d.have < |d.data| ==>
                  && u == s.(threads := u.threads)
                  && (ok ==> u.threads == s.threads[t := s.threads[t].(doing := d.(have := d.done + Least(512, |d.data| - d.done, |d.data|)))])
                  && (!ok ==> EndsWith(s, u, t, WriteCall(d.data, d.done, if d.done > 0 then Count(d.done) else Fault), [])))
            && (d.done < d.have || d.done == |d.data| ==> u == s)
            && (d.done < |d.data| ==> Step(s, Finish(t)) == s)
            && (d.done == |d.data| ==>
                  && Step(s, Finish(t)) == s.(threads := Step(s, Finish(t)).threads)
                  && EndsWith(s, Step(s, Finish(t)), t, WriteCall(d.data, |d.data|, Count(|d.data|)), []))
  {
    hide Order, Wakes, CallOk, Stream, Counts;
    assert ThreadOk(s.fds, t, s.threads[t]);
  }

  /** dup, dup2 and fork give the heir a descriptor of the same end; a close takes one away,
      and owes both sides their wakeup, and the news, unless it was the last of all. */
  lemma DescriptorsExactly(s: State, t: nat, fd: nat, copy: nat, heir: nat)
    requires Inv(s) && Free(s, t) && s.threads[t].doing.Idle? && Holds(s, t, fd)
    ensures copy !in s.fds ==>
              var u := Step(s, Dup(t, fd, copy, heir));
              u.fds == s.fds[copy := Fd(s.fds[fd].end, heir)] && u.threads == s.threads && u.queue == s.queue
    ensures var u := Step(s, Close(t, fd));
            && u.fds == s.fds - {fd} && u.queue == s.queue
            && (u.fds == map[] ==> u.threads == s.threads && u.freed == s.freed + 1)
            && (u.fds != map[] ==>
                  u.threads == s.threads[t := s.threads[t].(owes := [WakeReaders, WakeWriters, News])] && u.freed == s.freed)
  {
    hide Order, Wakes, Stream, Threads, Ends;
    NoneBelow(s, fd);
    ClosedCounts(s, t, fd);
    DeadMeansNone(Step(s, Close(t, fd)).fds);
  }

  lemma NoneBelow(s: State, fd: nat)
    requires Counts(s) && fd in s.fds
    ensures (if s.fds[fd].end.ReadEnd? then s.readers else s.writers) > 0
  {
    assert fd in Ends(s.fds, s.fds[fd].end);
  }

  /** A wake from elsewhere gets its thread going and changes nothing else. */
  lemma StrayExactly(s: State, t: nat)
    requires t in s.threads
    ensures var u := Step(s, Stray(t));
            u == s.(threads := u.threads) && u.threads == s.threads[t := s.threads[t].(asleep := false)]
  {
  }

  /** A wakeup wakes every sleeper of its side and nobody else; news wakes nobody here. */
  lemma WakeupExactly(s: State, t: nat, k: nat)
    requires Inv(s) && t in s.threads && s.threads[t].owes != [] && k in s.threads
    ensures var u := Step(s, Discharge(t));
            && u == s.(threads := u.threads) && k in u.threads && t in u.threads
            && u.threads[t] == s.threads[t].(owes := s.threads[t].owes[1..])
            && (k != t ==> u.threads[k] == s.threads[k].(asleep := s.threads[k].asleep && !(
                  || (s.threads[k].doing.Reading? && s.threads[t].owes[0] == WakeReaders)
                  || (s.threads[k].doing.Writing? && s.threads[t].owes[0] == WakeWriters))))
  {
    hide Order, Wakes, Stream, Counts, CallOk;
    assert ThreadOk(s.fds, t, s.threads[t]) && ThreadOk(s.fds, k, s.threads[k]);
  }

  // ---- every call answers its own request ---------------------------------------------

  datatype Request = ToRead(n: nat) | ToWrite(data: seq<bv8>)

  /** What a thread's calls asked for, the one it is in included. */
  function Requests(th: Thread): seq<Request> {
    Requested(th.calls) +
    match th.doing
    case Idle => []
    case Reading(_, asked, _) => [ToRead(asked)]
    case Writing(_, data, _, _) => [ToWrite(data)]
  }

  function Requested(calls: seq<Call>): (r: seq<Request>)
    ensures |r| == |calls|
  {
    seq(|calls|, i requires 0 <= i < |calls| =>
      match calls[i] case ReadCall(asked, _, _) => ToRead(asked) case WriteCall(data, _, _) => ToWrite(data))
  }

  /** The request `a` makes for `t`, if `t` is free to make it on a descriptor it holds. */
  function Makes(s: State, a: Action, t: nat): seq<Request> {
    if (a.Read? || a.Write?) && a.t == t && Free(s, t) && s.threads[t].doing.Idle? && Holds(s, t, a.fd)
       && s.fds[a.fd].end == (if a.Read? then ReadEnd else WriteEnd)
    then [if a.Read? then ToRead(a.n) else ToWrite(a.data)] else []
  }

  function AllMade(s: State, acts: seq<Action>, t: nat): seq<Request>
    decreases |acts|
  {
    if acts == [] then [] else Makes(s, acts[0], t) + AllMade(Step(s, acts[0]), acts[1..], t)
  }

  lemma RequestedSnoc(calls: seq<Call>, c: Call)
    ensures Requested(calls + [c]) == Requested(calls) + Requested([c])
  {
  }

  /** Ending a call keeps its request among the thread's. */
  lemma EndedRequest(th: Thread, c: Call, owes: seq<Duty>)
    requires (th.doing.Reading? && c.ReadCall? && c.asked == th.doing.asked)
          || (th.doing.Writing? && c.WriteCall? && c.data == th.doing.data)
    ensures Requests(Ended(th, c).(owes := owes)) == Requests(th)
  {
    hide Requested;
    RequestedSnoc(th.calls, c);
    One(c);
  }

  lemma BegunRequest(s: State, a: Action, t: nat)
    requires (a.Read? || a.Write?) && t in s.threads
    ensures Requests(Begun(s, a).threads[t]) == Requests(s.threads[t]) + Makes(s, a, t)
  {
    hide Requested;
    var th := s.threads[t];
    if a.Read? && a.n == 0 {
      RequestedSnoc(th.calls, ReadCall(0, [], Count(0)));
      One(ReadCall(0, [], Count(0)));
    }
  }

  lemma PassedRequest(s: State, t: nat, pending: bool, copyOk: bool, k: nat)
    requires k in s.threads
    ensures k in Passed(s, t, pending, copyOk).threads
    ensures Requests(Passed(s, t, pending, copyOk).threads[k]) == Requests(s.threads[k])
  {
    hide Requests, Tagged;
    var u := Passed(s, t, pending, copyOk);
    if k == t && Free(s, t) && u != s {
      var th := s.threads[t];
      if |u.threads[t].calls| > |th.calls| {
        var c := u.threads[t].calls[|th.calls|];
        EndedRequest(th, c, u.threads[t].owes);
      } else {
        SameRequests(th, u.threads[t]);
      }
    }
  }

  lemma SameRequests(th: Thread, after: Thread)
    requires after.calls == th.calls
    requires after.doing == th.doing
          || (th.doing.Writing? && after.doing.Writing? && after.doing.data == th.doing.data)
    ensures Requests(after) == Requests(th)
  {
  }

  lemma QuietRequest(s: State, a: Action, k: nat)
    requires k in s.threads && (a.CopyChunk? || a.Finish?)
    ensures k in Step(s, a).threads && Requests(Step(s, a).threads[k]) == Requests(s.threads[k])
  {
    hide Requests;
    var u := Step(s, a);
    if k == a.t && u != s {
      var th := s.threads[k];
      if |u.threads[k].calls| > |th.calls| {
        EndedRequest(th, u.threads[k].calls[|th.calls|], []);
      } else {
        SameRequests(th, u.threads[k]);
      }
    }
  }

  lemma DutyRequest(s: State, a: Action, k: nat)
    requires k in s.threads && (a.Discharge? || a.Stray? || a.Dup? || a.Close?)
    ensures k in Step(s, a).threads && Requests(Step(s, a).threads[k]) == Requests(s.threads[k])
  {
    hide Requests;
    SameRequests(s.threads[k], Step(s, a).threads[k]);
  }

  /** A step adds the request it makes for a thread and loses none. */
  lemma StepRequests(s: State, a: Action, t: nat)
    requires t in s.threads
    ensures t in Step(s, a).threads
    ensures Requests(Step(s, a).threads[t]) == Requests(s.threads[t]) + Makes(s, a, t)
  {
    hide Requests, Begun, Copied, Passed, Finished, Discharged, Duplicated, Closed;
    match a
    case Read(_, _, _) => BegunRequest(s, a, t);
    case Write(_, _, _) => BegunRequest(s, a, t);
    case Pass(k, pending, copyOk) => PassedRequest(s, k, pending, copyOk, t);
    case CopyChunk(_, _) => QuietRequest(s, a, t);
    case Finish(_) => QuietRequest(s, a, t);
    case _ => DutyRequest(s, a, t);
  }

  lemma One(c: Call)
    ensures Requested([c]) == [match c case ReadCall(asked, _, _) => ToRead(asked) case WriteCall(data, _, _) => ToWrite(data)]
  {
  }

  /** Over every run, a thread's calls, finished and not, answer exactly the requests it
      made, in order. */
  lemma {:induction false} CallsMatchRequests(s: State, acts: seq<Action>, t: nat)
    requires t in s.threads
    ensures t in Run(s, acts).threads
    ensures Requests(Run(s, acts).threads[t]) == Requests(s.threads[t]) + AllMade(s, acts, t)
    decreases |acts|
  {
    hide Step, Requests, Makes;
    if acts != [] {
      StepRequests(s, acts[0], t);
      CallsMatchRequests(Step(s, acts[0]), acts[1..], t);
    }
  }

  /** Over every run, no read is given more than it asked for, and what it is given came
      out of the ring; an error, but for a failed copy-out, moved nothing. */
  lemma ReadsStayWithinTheirLength(s: State, acts: seq<Action>, t: nat, c: Call)
    requires Init(s) && t in Run(s, acts).threads && c in Run(s, acts).threads[t].calls && c.ReadCall?
    ensures |c.bytes| <= c.asked
    ensures c.result == Count(|c.bytes|) || c.result == Fault || (c.bytes == [] && (c.result == Eof || c.result == Interrupted))
  {
    hide Run, Stream, Order, Counts, Wakes;
    InitHolds(s);
    RunKeeps(s, acts);
    assert ThreadOk(Run(s, acts).fds, t, Run(s, acts).threads[t]);
    assert CallOk(c);
  }

  // ---- what the answers are worth --------------------------------------------------

  /** The answer lets the caller know how many bytes went through the ring. */
  predicate Honest(c: Call) {
    match c
    case ReadCall(_, bytes, result) => result == Count(|bytes|) || bytes == []
    case WriteCall(_, moved, result) => result == Count(moved) || moved == 0
  }

  /** The two ways to lose track: a read whose copy-out fails after the bytes left the
      ring, and a write interrupted at a full ring after some of it went in. */
  predicate Misreports(s: State, a: Action)
    requires a.Pass? && Free(s, a.t)
  {
    var d := s.threads[a.t].doing;
    if d.Reading? then s.queue != [] && !a.copyOk
    else d.Writing? && s.readers > 0 && |s.queue| == PIPE_BUF && a.pending && 0 < d.done < d.have
  }

  function CallsOf(s: State, t: nat): seq<Call> {
    if t in s.threads then s.threads[t].calls else []
  }

  /** A call that ends in a locked pass reports honestly exactly when neither happens. */
  lemma HonestExactly(s: State, a: Action, c: Call)
    requires Inv(s) && a.Pass? && Free(s, a.t)
    requires CallsOf(Step(s, a), a.t) == CallsOf(s, a.t) + [c]
    ensures Honest(c) <==> !Misreports(s, a)
  {
    hide From, Bytes, SentBy, Moved, Order, Wakes, Ends, Counts, CallOk;
    assert ThreadOk(s.fds, a.t, s.threads[a.t]);
    assert CallsOf(Step(s, a), a.t)[|CallsOf(s, a.t)|] == c;
  }

  /** Every other way a call can end is honest. */
  lemma HonestOtherwise(s: State, a: Action, t: nat, c: Call)
    requires !a.Pass? && CallsOf(Step(s, a), t) == CallsOf(s, t) + [c]
    ensures Honest(c)
  {
    assert CallsOf(Step(s, a), t)[|CallsOf(s, t)|] == c;
  }

  // ---- a write that loses track ----------------------------------------------------

  function Zeros(n: nat): seq<bv8> {
    seq(n, i requires 0 <= i => 0)
  }

  /** One thread, `k` chunks into a write of nine, nobody reading yet. */
  function Filling(k: nat): State {
    State(Zeros(k * CHUNK), 1, 1, 0, BothEnds(0, 1, 7),
          map[7 := Thread(Writing(1, Zeros(9 * CHUNK), k * CHUNK, k * CHUNK), false, [], [])],
          Tagged(7, Zeros(k * CHUNK)), [])
  }

  const ROUND: seq<Action> := [CopyChunk(7, true), Pass(7, false, true), Discharge(7), Discharge(7)]

  function Rounds(k: nat): seq<Action> {
    if k == 0 then [] else Rounds(k - 1) + ROUND
  }

  lemma RunAppend(s: State, a: seq<Action>, b: seq<Action>)
    ensures Run(s, a + b) == Run(Run(s, a), b)
    decreases |a|
  {
    if a == [] {
      assert a + b == b;
    } else {
      assert (a + b)[1..] == a[1..] + b;
      RunAppend(Step(s, a[0]), a[1..], b);
    }
  }

  lemma RoundFills(k: nat)
    requires k < 8
    ensures Run(Filling(k), ROUND) == Filling(k + 1)
  {
    hide Run;
    var s := Filling(k);
    var s1 := Step(s, ROUND[0]);
    FourSteps(s, ROUND);
    PassFills(k);
    Announced(Filling(k + 1));
  }

  /** The round's last two steps: the wake finds nobody, then the news. */
  lemma Announced(s: State)
    requires s.threads.Keys == {7} && s.threads[7].owes == [] && !s.threads[7].asleep
    ensures var u := Set(s, 7, s.threads[7].(owes := [WakeReaders, News]));
            Step(Step(u, Discharge(7)), Discharge(7)) == s
  {
    var u := Set(s, 7, s.threads[7].(owes := [WakeReaders, News]));
    var v := Step(u, Discharge(7));
    assert WakeAllReaders(u.threads) == u.threads;
    assert u.threads[7].owes[1..] == [News];
    assert v.threads[7] == s.threads[7].(owes := [News]);
    var w := Step(v, Discharge(7));
    assert v.threads[7].owes[1..] == [];
    assert w.threads.Keys == {7} && w.threads[7] == s.threads[7];
    assert w.threads == s.threads;
  }

  lemma PassFills(k: nat)
    requires k < 8
    ensures var after := Filling(k + 1);
            Step(Step(Filling(k), CopyChunk(7, true)), Pass(7, false, true))
            == Set(after, 7, after.threads[7].(owes := [WakeReaders, News]))
  {
    var s := Step(Filling(k), CopyChunk(7, true));
    var d := s.threads[7].doing;
    assert d == Writing(1, Zeros(9 * CHUNK), (k + 1) * CHUNK, k * CHUNK);
    assert d.data[d.done..d.done + CHUNK] == Zeros(CHUNK);
    assert s.queue + Zeros(CHUNK) == Zeros((k + 1) * CHUNK);
    assert s.accepted + Tagged(7, Zeros(CHUNK)) == Tagged(7, Zeros((k + 1) * CHUNK));
  }

  lemma FourSteps(s: State, acts: seq<Action>)
    requires |acts| == 4
    ensures Run(s, acts) == Step(Step(Step(Step(s, acts[0]), acts[1]), acts[2]), acts[3])
  {
    hide Step;
    var s1 := Step(s, acts[0]);
    var s2 := Step(s1, acts[1]);
    assert Run(s, acts) == Run(s1, acts[1..]);
    assert Run(s1, acts[1..]) == Run(s2, acts[1..][1..]);
    assert acts[1..][1..] == [acts[2], acts[3]];
    assert Run(s2, [acts[2], acts[3]]) == Run(Step(s2, acts[2]), [acts[3]]);
    assert Run(Step(s2, acts[2]), [acts[3]]) == Run(Step(Step(s2, acts[2]), acts[3]), []);
  }

  lemma {:induction false} RoundsFill(k: nat)
    requires k <= 8
    ensures Run(Filling(0), Rounds(k)) == Filling(k)
  {
    hide Filling, Run, Step;
    if k == 0 {
      assert Run(Filling(0), []) == Filling(0) by { RunNothing(Filling(0)); }
    } else {
      RoundsFill(k - 1);
      RunAppend(Filling(0), Rounds(k - 1), ROUND);
      RoundFills(k - 1);
    }
  }

  lemma RunNothing(s: State)
    ensures Run(s, []) == s
  {
  }

  lemma JustMade() returns (s: State)
    ensures Init(s) && Step(s, Write(7, 1, Zeros(9 * CHUNK))) == Filling(0)
  {
    s := Filling(0).(threads := map[7 := Thread(Idle, false, [], [])]);
    assert Zeros(0) == [] && Tagged(7, Zeros(0)) == [];
    assert s.fds == BothEnds(0, 1, 7);
  }

  /** Such a write exists: nine chunks into a ring of eight, then a signal.  It is
      answered `Interrupted` with all 4096 bytes of the ring accepted. */
  lemma InterruptedWriteExists() returns (s: State, acts: seq<Action>)
    ensures Init(s)
    ensures CallsOf(Run(s, acts), 7) == [WriteCall(Zeros(9 * CHUNK), PIPE_BUF, Interrupted)]
  {
    hide Run, Step, Rounds, Filling, CallsOf;
    s := JustMade();
    var begin := [Write(7, 1, Zeros(9 * CHUNK))];
    var tail := [CopyChunk(7, true), Pass(7, true, true)];
    acts := begin + Rounds(8) + tail;
    RunAppend(s, begin + Rounds(8), tail);
    RunAppend(s, begin, Rounds(8));
    OneStep(s, begin[0]);
    RoundsFill(8);
    FullThenSignal();
  }

  lemma OneStep(s: State, a: Action)
    ensures Run(s, [a]) == Step(s, a)
  {
    hide Step;
    assert Run(s, [a]) == Run(Step(s, a), []);
  }

  lemma FullThenSignal()
    ensures CallsOf(Run(Filling(8), [CopyChunk(7, true), Pass(7, true, true)]), 7)
            == [WriteCall(Zeros(9 * CHUNK), PIPE_BUF, Interrupted)]
  {
    var s := Filling(8);
    var s1 := Step(s, CopyChunk(7, true));
    var s2 := Step(s1, Pass(7, true, true));
    RunAppend(s, [CopyChunk(7, true)], [Pass(7, true, true)]);
    OneStep(s, CopyChunk(7, true));
    OneStep(s1, Pass(7, true, true));
    assert [CopyChunk(7, true)] + [Pass(7, true, true)] == [CopyChunk(7, true), Pass(7, true, true)];
  }

  // ---- a read that loses bytes -------------------------------------------------------

  const WRITE_FIVE: seq<Action> := [CopyChunk(7, true), Pass(7, false, true), Discharge(7), Discharge(7)]

  /** One byte into a write of one, nothing owed. */
  function Writing5(done: nat): State
    requires done <= 1
  {
    State(if done == 0 then [] else [5], 1, 1, 0, BothEnds(0, 1, 7),
          map[7 := Thread(Writing(1, [5], done, done), false, [], [])],
          if done == 0 then [] else Tagged(7, [5]), [])
  }

  lemma FivePassed()
    ensures Run(Writing5(0), WRITE_FIVE) == Writing5(1)
  {
    hide Run;
    FourSteps(Writing5(0), WRITE_FIVE);
    var after := Writing5(1);
    var s2 := Step(Step(Writing5(0), WRITE_FIVE[0]), WRITE_FIVE[1]);
    assert s2 == Set(after, 7, after.threads[7].(owes := [WakeReaders, News])) by {
      var d := Step(Writing5(0), WRITE_FIVE[0]).threads[7].doing;
      assert d == Writing(1, [5], 1, 0);
      assert d.data[0..1] == [5];
    }
    Announced(after);
  }

  /** Such a read exists: one byte written, then a read of it whose copy-out fails.  It is
      answered `Fault`, the byte is out of the ring and nobody has it. */
  lemma FaultedReadExists() returns (s: State, acts: seq<Action>)
    ensures Init(s)
    ensures CallsOf(Run(s, acts), 7) == [WriteCall([5], 1, Count(1)), ReadCall(1, [5], Fault)]
    ensures Run(s, acts).queue == []
  {
    hide Run, Step, Init;
    s := Writing5(0).(threads := map[7 := Thread(Idle, false, [], [])]);
    var begin := [Write(7, 1, [5])];
    var tail := [Finish(7), Read(7, 0, 1), Pass(7, false, false)];
    acts := begin + WRITE_FIVE + tail;
    assert Init(s) && Step(s, begin[0]) == Writing5(0) by { FiveBegins(s); }
    OneStep(s, begin[0]);
    RunAppend(s, begin, WRITE_FIVE);
    RunAppend(s, begin + WRITE_FIVE, tail);
    FivePassed();
    FiveLost();
  }

  lemma FiveBegins(s: State)
    requires s == Writing5(0).(threads := map[7 := Thread(Idle, false, [], [])])
    ensures Init(s) && Step(s, Write(7, 1, [5])) == Writing5(0)
  {
    assert s.fds == BothEnds(0, 1, 7);
    assert Step(s, Write(7, 1, [5])).threads == Writing5(0).threads;
  }

  lemma FiveLost()
    ensures var u := Run(Writing5(1), [Finish(7), Read(7, 0, 1), Pass(7, false, false)]);
            u.queue == [] && CallsOf(u, 7) == [WriteCall([5], 1, Count(1)), ReadCall(1, [5], Fault)]
  {
    hide Run, Step, Writing5;
    var s1 := Step(Writing5(1), Finish(7));
    var s2 := Step(s1, Read(7, 0, 1));
    LastSteps();
    assert [Finish(7), Read(7, 0, 1), Pass(7, false, false)] == [Finish(7)] + ([Read(7, 0, 1)] + [Pass(7, false, false)]);
    RunAppend(Writing5(1), [Finish(7)], [Read(7, 0, 1)] + [Pass(7, false, false)]);
    OneStep(Writing5(1), Finish(7));
    RunAppend(s1, [Read(7, 0, 1)], [Pass(7, false, false)]);
    OneStep(s1, Read(7, 0, 1));
    OneStep(s2, Pass(7, false, false));
  }

  lemma LastSteps()
    ensures var u := Step(Step(Step(Writing5(1), Finish(7)), Read(7, 0, 1)), Pass(7, false, false));
            u.queue == [] && CallsOf(u, 7) == [WriteCall([5], 1, Count(1)), ReadCall(1, [5], Fault)]
  {
    var s1 := Step(Writing5(1), Finish(7));
    assert s1.threads[7].calls == [WriteCall([5], 1, Count(1))];
    assert s1.threads == map[7 := Thread(Idle, false, [], [WriteCall([5], 1, Count(1))])];
    ReadLoses(s1);
  }

  lemma ReadLoses(s: State)
    requires s == Writing5(1).(threads := map[7 := Thread(Idle, false, [], [WriteCall([5], 1, Count(1))])])
    ensures var u := Step(Step(s, Read(7, 0, 1)), Pass(7, false, false));
            u.queue == [] && CallsOf(u, 7) == [WriteCall([5], 1, Count(1)), ReadCall(1, [5], Fault)]
  {
    var s2 := Step(s, Read(7, 0, 1));
    assert s2.threads[7].doing == Reading(0, 1, 1);
    assert s2.queue[..1] == [5] && s2.queue[1..] == [];
    assert TryRead(|s2.queue|, s2.writers, 1, false) == Took(1) && Free(s2, 7);
    var s3 := Step(s2, Pass(7, false, false));
    assert s3 == ReadPass(s2, 7, false, false);
    assert s3.threads[7] == Ended(s2.threads[7], ReadCall(1, [5], Fault)).(owes := [WakeWriters, News]);
  }
}
