/** POSIX advisory record locks (kern/darwin.c): one list of byte ranges for the
    whole machine, read as a map from (file, owner, byte) to the lock held there. */
module RecordLocks {
  import opened Options

  const TWO_64: nat := 0x1_0000_0000_0000_0000
  const TWO_32: nat := 0x1_0000_0000
  const LK_MAX: nat := 256

  datatype Kind = Read | Write

  /** One entry: `owner` holds `kind` on bytes start..end of `file`, inclusive. */
  datatype Lock = Lock(file: nat, owner: nat, start: nat, end: nat, kind: Kind)

  /** One F_SETLK, in absolute bytes; `op` None is F_UNLCK. */
  datatype Request = Request(file: nat, owner: nat, start: nat, end: nat, op: Option<Kind>)

  predicate ValidRange(start: nat, end: nat) {
    start <= end < TWO_64
  }

  predicate ValidRequest(r: Request) {
    ValidRange(r.start, r.end)
  }

  // ---- the list as a map of bytes -------------------------------------------

  predicate Covers(lk: Lock, file: nat, owner: nat, byte: nat) {
    lk.file == file && lk.owner == owner && lk.start <= byte <= lk.end
  }

  /** What `owner` holds on one byte of `file`. */
  function Held(list: seq<Lock>, file: nat, owner: nat, byte: nat): Option<Kind> {
    if list == [] then None
    else if Covers(list[0], file, owner, byte) then Some(list[0].kind)
    else Held(list[1..], file, owner, byte)
  }

  /** No byte is in both entries, or they belong to different owners or files. */
  predicate Apart(a: Lock, b: Lock) {
    a.file != b.file || a.owner != b.owner || a.end < b.start || b.end < a.start
  }

  predicate ApartFrom(a: Lock, list: seq<Lock>) {
    forall i :: 0 <= i < |list| ==> Apart(a, list[i])
  }

  /** Non-empty ranges, and one owner's ranges on a file pairwise disjoint. */
  predicate WellFormed(list: seq<Lock>) {
    list == [] ||
    (ValidRange(list[0].start, list[0].end) && ApartFrom(list[0], list[1..]) && WellFormed(list[1..]))
  }

  /** Whether a lock may stand beside what another owner holds. */
  predicate Compatible(mine: Kind, theirs: Option<Kind>) {
    theirs == None || (mine == Read && theirs == Some(Read))
  }

  /** The exclusion POSIX promises, byte by byte. */
  ghost predicate Exclusive(list: seq<Lock>) {
    forall file, a, b, byte {:trigger Held(list, file, a, byte), Held(list, file, b, byte)} ::
      a != b && Held(list, file, a, byte).Some? ==>
        Compatible(Held(list, file, a, byte).value, Held(list, file, b, byte))
  }

  // ---- what the code does to one entry and to the list -----------------------

  predicate Overlaps(lk: Lock, r: Request) {
    lk.file == r.file && lk.start <= r.end && r.start <= lk.end
  }

  predicate Touches(lk: Lock, r: Request) {
    lk.owner == r.owner && Overlaps(lk, r)
  }

  predicate Sticks(lk: Lock, r: Request) {
    Touches(lk, r) && lk.start < r.start && r.end < lk.end
  }

  /** What is left of an entry once [r.start, r.end] is taken out of it. */
  function Pieces(lk: Lock, r: Request): seq<Lock>
    requires ValidRequest(r)
  {
    if !Touches(lk, r) then [lk]
    else if r.start <= lk.start && lk.end <= r.end then []
    else if Sticks(lk, r) then [lk.(end := r.start - 1), lk.(start := r.end + 1)]
    else if lk.start < r.start then [lk.(end := r.start - 1)]
    else [lk.(start := r.end + 1)]
  }

  function Cut(list: seq<Lock>, r: Request): seq<Lock>
    requires ValidRequest(r)
  {
    if list == [] then [] else Pieces(list[0], r) + Cut(list[1..], r)
  }

  function NewLock(r: Request): seq<Lock> {
    if r.op.None? then [] else [Lock(r.file, r.owner, r.start, r.end, r.op.value)]
  }

  function Applied(list: seq<Lock>, r: Request): seq<Lock>
    requires ValidRequest(r)
  {
    NewLock(r) + Cut(list, r)
  }

  // ---- refinement: apply changes exactly the requested bytes ------------------

  predicate Asked(r: Request, file: nat, owner: nat, byte: nat) {
    file == r.file && owner == r.owner && r.start <= byte <= r.end
  }

  lemma {:induction false} HeldAppend(a: seq<Lock>, b: seq<Lock>, file: nat, owner: nat, byte: nat)
    ensures Held(a + b, file, owner, byte)
         == if Held(a, file, owner, byte).Some? then Held(a, file, owner, byte) else Held(b, file, owner, byte)
  {
    if a == [] {
      assert a + b == b;
    } else {
      assert (a + b)[0] == a[0] && (a + b)[1..] == a[1..] + b;
      HeldAppend(a[1..], b, file, owner, byte);
    }
  }

  lemma PiecesMeaning(lk: Lock, r: Request, file: nat, owner: nat, byte: nat)
    requires ValidRequest(r)
    ensures Held(Pieces(lk, r), file, owner, byte)
         == if Covers(lk, file, owner, byte) && !Asked(r, file, owner, byte) then Some(lk.kind) else None
  {
    var ps := Pieces(lk, r);
    if |ps| == 1 {
      assert ps[1..] == [];
    } else if |ps| == 2 {
      assert ps == [ps[0]] + [ps[1]];
      HeldAppend([ps[0]], [ps[1]], file, owner, byte);
    }
  }

  lemma {:induction false} CutMeaning(list: seq<Lock>, r: Request, file: nat, owner: nat, byte: nat)
    requires ValidRequest(r)
    ensures Held(Cut(list, r), file, owner, byte)
         == if Asked(r, file, owner, byte) then None else Held(list, file, owner, byte)
  {
    if list != [] {
      CutMeaning(list[1..], r, file, owner, byte);
      PiecesMeaning(list[0], r, file, owner, byte);
      HeldAppend(Pieces(list[0], r), Cut(list[1..], r), file, owner, byte);
    }
  }

  /** Exactly the owner's bytes [start, end] of the file change, to the new kind
      or to none; every other byte, owner and file keeps what it had. */
  lemma ApplyMeaning(list: seq<Lock>, r: Request, file: nat, owner: nat, byte: nat)
    requires ValidRequest(r)
    ensures Held(Applied(list, r), file, owner, byte)
         == if Asked(r, file, owner, byte) then r.op else Held(list, file, owner, byte)
  {
    CutMeaning(list, r, file, owner, byte);
    HeldAppend(NewLock(r), Cut(list, r), file, owner, byte);
  }

  // ---- one owner's ranges stay disjoint ---------------------------------------

  lemma {:induction false} WellFormedAppend(a: seq<Lock>, b: seq<Lock>)
    requires WellFormed(a) && WellFormed(b)
    requires forall i :: 0 <= i < |a| ==> ApartFrom(a[i], b)
    ensures WellFormed(a + b)
  {
    if a == [] {
      assert a + b == b;
    } else {
      assert (a + b)[0] == a[0] && (a + b)[1..] == a[1..] + b;
      assert forall i :: 0 <= i < |a[1..]| ==> a[1..][i] == a[i + 1];
      WellFormedAppend(a[1..], b);
    }
  }

  /** Every piece of `Cut(list)` lies inside an entry of `list`. */
  lemma {:induction false} ApartFromCut(x: Lock, list: seq<Lock>, r: Request)
    requires ValidRequest(r) && ApartFrom(x, list)
    ensures ApartFrom(x, Cut(list, r))
  {
    if list != [] {
      assert forall i :: 0 <= i < |list[1..]| ==> list[1..][i] == list[i + 1];
      ApartFromCut(x, list[1..], r);
      assert ApartFrom(x, Pieces(list[0], r));
    }
  }

  lemma {:induction false} CutWellFormed(list: seq<Lock>, r: Request)
    requires ValidRequest(r) && WellFormed(list)
    ensures WellFormed(Cut(list, r))
    ensures forall i :: 0 <= i < |Cut(list, r)| ==> !Touches(Cut(list, r)[i], r)
  {
    if list != [] {
      CutWellFormed(list[1..], r);
      var ps := Pieces(list[0], r);
      ApartFromCut(list[0], list[1..], r);
      forall i | 0 <= i < |ps|
        ensures ApartFrom(ps[i], Cut(list[1..], r))
      {
      }
      assert |ps| == 2 ==> ps[1..] == [ps[1]] && [ps[1]][1..] == [];
      WellFormedAppend(ps, Cut(list[1..], r));
    }
  }

  lemma ApplyWellFormed(list: seq<Lock>, r: Request)
    requires ValidRequest(r) && WellFormed(list)
    ensures WellFormed(Applied(list, r))
  {
    CutWellFormed(list, r);
    WellFormedAppend(NewLock(r), Cut(list, r));
  }

  // ---- at most one entry is split ---------------------------------------------

  function Splits(list: seq<Lock>, r: Request): nat {
    if list == [] then 0 else (if Sticks(list[0], r) then 1 else 0) + Splits(list[1..], r)
  }

  lemma {:induction false} NoSplitBeside(x: Lock, list: seq<Lock>, r: Request)
    requires ValidRequest(r) && Sticks(x, r) && ApartFrom(x, list)
    ensures Splits(list, r) == 0
  {
    if list != [] {
      assert forall i :: 0 <= i < |list[1..]| ==> list[1..][i] == list[i + 1];
      assert Apart(x, list[0]);
      NoSplitBeside(x, list[1..], r);
    }
  }

  /** The one spare entry a request carries is enough. */
  lemma {:induction false} OneSplit(list: seq<Lock>, r: Request)
    requires ValidRequest(r) && WellFormed(list)
    ensures Splits(list, r) <= 1
  {
    if list != [] {
      OneSplit(list[1..], r);
      if Sticks(list[0], r) {
        NoSplitBeside(list[0], list[1..], r);
      }
    }
  }

  lemma {:induction false} CutLength(list: seq<Lock>, r: Request)
    requires ValidRequest(r)
    ensures |Cut(list, r)| <= |list| + Splits(list, r)
  {
    if list != [] {
      CutLength(list[1..], r);
    }
  }

  // ---- conflicts --------------------------------------------------------------

  /** Another owner's entry that a lock request cannot coexist with. */
  predicate Blocks(lk: Lock, r: Request) {
    lk.owner != r.owner && Overlaps(lk, r) && (lk.kind == Write || r.op == Some(Write))
  }

  predicate Conflicts(list: seq<Lock>, r: Request) {
    exists i :: 0 <= i < |list| && Blocks(list[i], r)
  }

  /** An entry of a well-formed list is what its owner holds on each of its bytes. */
  lemma {:induction false} EntryIsHeld(list: seq<Lock>, i: nat, byte: nat)
    requires WellFormed(list) && i < |list| && list[i].start <= byte <= list[i].end
    ensures Held(list, list[i].file, list[i].owner, byte) == Some(list[i].kind)
  {
    if i > 0 {
      assert list[1..][i - 1] == list[i];
      assert Apart(list[0], list[1..][i - 1]);
      EntryIsHeld(list[1..], i - 1, byte);
    }
  }

  lemma {:induction false} HeldIsEntry(list: seq<Lock>, file: nat, owner: nat, byte: nat) returns (i: nat)
    requires Held(list, file, owner, byte).Some?
    ensures i < |list| && Covers(list[i], file, owner, byte)
    ensures Held(list, file, owner, byte) == Some(list[i].kind)
  {
    if Covers(list[0], file, owner, byte) {
      i := 0;
    } else {
      var j := HeldIsEntry(list[1..], file, owner, byte);
      i := j + 1;
    }
  }

  function Larger(a: nat, b: nat): nat {
    if a <= b then b else a
  }

  /** Another owner holds a byte the request asks for, incompatibly. */
  predicate Opposes(list: seq<Lock>, r: Request, owner: nat, byte: nat)
    requires r.op.Some?
  {
    owner != r.owner && r.start <= byte <= r.end && !Compatible(r.op.value, Held(list, r.file, owner, byte))
  }

  ghost predicate HeldAgainst(list: seq<Lock>, r: Request) {
    r.op.Some? && exists owner: nat, byte: nat :: Opposes(list, r, owner, byte)
  }

  /** The scan over entries answers the question about bytes: it finds a blocker
      exactly when some byte asked for is held incompatibly by someone else. */
  lemma ConflictMeaning(list: seq<Lock>, r: Request)
    requires WellFormed(list) && ValidRequest(r) && r.op.Some?
    ensures Conflicts(list, r) <==> HeldAgainst(list, r)
  {
    if Conflicts(list, r) {
      var i :| 0 <= i < |list| && Blocks(list[i], r);
      var byte := Larger(list[i].start, r.start);
      RangesValid(list, i);
      EntryIsHeld(list, i, byte);
      assert Opposes(list, r, list[i].owner, byte);
    }
    forall owner: nat, byte: nat | Opposes(list, r, owner, byte)
      ensures Conflicts(list, r)
    {
      var i := HeldIsEntry(list, r.file, owner, byte);
      assert Blocks(list[i], r);
    }
  }

  lemma {:induction false} RangesValid(list: seq<Lock>, i: nat)
    requires WellFormed(list) && i < |list|
    ensures ValidRange(list[i].start, list[i].end)
  {
    if i > 0 {
      RangesValid(list[1..], i - 1);
    }
  }

  // ---- whole runs -------------------------------------------------------------

  datatype Outcome = Granted | Blocked | NoLocks

  /** darwin_lk_count: a 32-bit count of the entries. */
  function Count(list: seq<Lock>): (n: nat)
    ensures n == |list| <==> |list| < TWO_32
  {
    |list| % TWO_32
  }

  /** The table has no room for a lock and its split, as far as the count knows. */
  predicate Full(list: seq<Lock>) {
    (Count(list) + 2) % TWO_32 > LK_MAX
  }

  /** darwin_lk_try: an unlock is never refused, though it may split. */
  function Try(list: seq<Lock>, r: Request): (seq<Lock>, Outcome)
    requires ValidRequest(r)
  {
    if r.op.Some? && Conflicts(list, r) then (list, Blocked)
    else if r.op.Some? && Full(list) then (list, NoLocks)
    else (Applied(list, r), Granted)
  }

  predicate Drops(lk: Lock, owner: nat, file: nat) {
    lk.owner == owner && (file == 0 || lk.file == file)
  }

  /** darwin_lk_drop: everything `owner` holds on `file`, or anywhere if it is 0. */
  function Dropped(list: seq<Lock>, owner: nat, file: nat): seq<Lock> {
    if list == [] then []
    else if Drops(list[0], owner, file) then Dropped(list[1..], owner, file)
    else [list[0]] + Dropped(list[1..], owner, file)
  }

  datatype Action =
    | Set(r: Request)
    | Drop(owner: nat, file: nat)

  predicate ValidAction(a: Action) {
    a.Set? ==> ValidRequest(a.r)
  }

  function Step(list: seq<Lock>, a: Action): seq<Lock>
    requires ValidAction(a)
  {
    match a
    case Set(r) => Try(list, r).0
    case Drop(owner, file) => Dropped(list, owner, file)
  }

  function Run(list: seq<Lock>, acts: seq<Action>): seq<Lock>
    requires forall i :: 0 <= i < |acts| ==> ValidAction(acts[i])
    decreases |acts|
  {
    if acts == [] then list else Run(Step(list, acts[0]), acts[1..])
  }

  lemma {:induction false} DropMeaning(list: seq<Lock>, owner: nat, file: nat, f: nat, o: nat, byte: nat)
    ensures Held(Dropped(list, owner, file), f, o, byte)
         == if o == owner && (file == 0 || f == file) then None else Held(list, f, o, byte)
  {
    if list != [] {
      DropMeaning(list[1..], owner, file, f, o, byte);
      if !Drops(list[0], owner, file) {
        var rest := Dropped(list[1..], owner, file);
        assert ([list[0]] + rest)[1..] == rest;
      }
    }
  }

  lemma {:induction false} ApartFromDropped(x: Lock, list: seq<Lock>, owner: nat, file: nat)
    requires ApartFrom(x, list)
    ensures ApartFrom(x, Dropped(list, owner, file))
  {
    if list != [] {
      assert forall i :: 0 <= i < |list[1..]| ==> list[1..][i] == list[i + 1];
      ApartFromDropped(x, list[1..], owner, file);
    }
  }

  lemma {:induction false} DropWellFormed(list: seq<Lock>, owner: nat, file: nat)
    requires WellFormed(list)
    ensures WellFormed(Dropped(list, owner, file))
  {
    if list != [] {
      DropWellFormed(list[1..], owner, file);
      ApartFromDropped(list[0], list[1..], owner, file);
      var rest := Dropped(list[1..], owner, file);
      assert ([list[0]] + rest)[1..] == rest;
    }
  }

  /** A lock granted where nothing conflicts keeps every byte exclusive. */
  lemma GrantKeepsExclusion(list: seq<Lock>, r: Request)
    requires WellFormed(list) && ValidRequest(r) && Exclusive(list)
    requires r.op.Some? ==> !Conflicts(list, r)
    ensures Exclusive(Applied(list, r))
  {
    var after := Applied(list, r);
    if r.op.Some? {
      ConflictMeaning(list, r);
    }
    forall file, a, b, byte | a != b && Held(after, file, a, byte).Some?
      ensures Compatible(Held(after, file, a, byte).value, Held(after, file, b, byte))
    {
      ApplyMeaning(list, r, file, a, byte);
      ApplyMeaning(list, r, file, b, byte);
      if r.op.Some? { assert !Opposes(list, r, a, byte) && !Opposes(list, r, b, byte); }
      if Asked(r, file, b, byte) && r.op.Some? {
        assert Compatible(r.op.value, Held(list, file, a, byte));
      }
    }
  }

  lemma StepKeeps(list: seq<Lock>, a: Action)
    requires ValidAction(a) && WellFormed(list) && Exclusive(list)
    ensures WellFormed(Step(list, a)) && Exclusive(Step(list, a))
  {
    match a
    case Set(r) =>
      ApplyWellFormed(list, r);
      if r.op.None? || !Conflicts(list, r) {
        GrantKeepsExclusion(list, r);
      }
    case Drop(owner, file) =>
      DropWellFormed(list, owner, file);
      var after := Dropped(list, owner, file);
      forall f, x, y, byte | x != y && Held(after, f, x, byte).Some?
        ensures Compatible(Held(after, f, x, byte).value, Held(after, f, y, byte))
      {
        DropMeaning(list, owner, file, f, x, byte);
        DropMeaning(list, owner, file, f, y, byte);
      }
  }

  /** Over every sequence of requests, closes and exits: no two owners ever hold
      one byte with either lock a write lock, and one owner's ranges stay disjoint. */
  lemma {:induction false} ExclusionOverRuns(list: seq<Lock>, acts: seq<Action>)
    requires forall i :: 0 <= i < |acts| ==> ValidAction(acts[i])
    requires WellFormed(list) && Exclusive(list)
    ensures WellFormed(Run(list, acts)) && Exclusive(Run(list, acts))
    decreases |acts|
  {
    if acts != [] {
      StepKeeps(list, acts[0]);
      ExclusionOverRuns(Step(list, acts[0]), acts[1..]);
    }
  }

  // ---- how long the list gets -----------------------------------------------------

  /** An entry that sticks out at both ends has the owner's range to itself. */
  lemma {:induction false} SplitAlone(x: Lock, list: seq<Lock>, r: Request)
    requires ValidRequest(r) && Sticks(x, r) && ApartFrom(x, list) && WellFormed(list)
    ensures Cut(list, r) == list && Splits(list, r) == 0
  {
    if list != [] {
      assert forall i :: 0 <= i < |list[1..]| ==> list[1..][i] == list[i + 1];
      assert Apart(x, list[0]);
      assert !Touches(list[0], r);
      SplitAlone(x, list[1..], r);
    }
  }

  /** Cutting a range out of a list makes it longer, by one, exactly when an entry
      sticks out of it at both ends. */
  lemma {:induction false} CutGrowsExactly(list: seq<Lock>, r: Request)
    requires ValidRequest(r) && WellFormed(list)
    ensures |Cut(list, r)| > |list| <==> exists i :: 0 <= i < |list| && Sticks(list[i], r)
    ensures |Cut(list, r)| <= |list| + 1
  {
    OneSplit(list, r);
    CutLength(list, r);
    SplitsMeaning(list, r);
    if list != [] {
      CutGrowsExactly(list[1..], r);
      SplitsMeaning(list[1..], r);
      if Sticks(list[0], r) { SplitAlone(list[0], list[1..], r); }
      else if Touches(list[0], r) { NoSplitAcross(list[0], list[1..], r); }
    }
  }

  lemma {:induction false} SplitsMeaning(list: seq<Lock>, r: Request)
    ensures Splits(list, r) > 0 <==> exists i :: 0 <= i < |list| && Sticks(list[i], r)
  {
    if list != [] {
      SplitsMeaning(list[1..], r);
      assert forall i :: 0 <= i < |list[1..]| ==> list[1..][i] == list[i + 1];
    }
  }

  /** Where one entry meets the range, no other of its owner's sticks out of it. */
  lemma NoSplitAcross(x: Lock, list: seq<Lock>, r: Request)
    requires ValidRequest(r) && Touches(x, r) && ValidRange(x.start, x.end) && ApartFrom(x, list)
    ensures Splits(list, r) == 0
  {
    SplitsMeaning(list, r);
    assert forall i :: 0 <= i < |list| ==> Apart(x, list[i]) && !Sticks(list[i], r);
  }

  /** The table's limit.  From a list within it, it is passed exactly one way: by an
      unlock inside one entry of a full table.  Any unlock adds one entry exactly when
      it splits one.  A grant had room for itself and a split exactly when the 32-bit
      count had not wrapped, and then leaves at most LK_MAX entries. */
  lemma TableBound(list: seq<Lock>, r: Request)
    requires WellFormed(list) && ValidRequest(r)
    ensures |list| <= LK_MAX ==>
              (|Try(list, r).0| > LK_MAX
               <==> r.op.None? && |list| == LK_MAX && exists i :: 0 <= i < |list| && Sticks(list[i], r))
    ensures r.op.None? ==>
              && |Try(list, r).0| <= |list| + 1
              && (|Try(list, r).0| == |list| + 1 <==> exists i :: 0 <= i < |list| && Sticks(list[i], r))
    ensures r.op.Some? && Try(list, r).1 == Granted ==>
              && (|list| + 2 <= LK_MAX <==> |list| + 2 < TWO_32)
              && (|list| + 2 < TWO_32 ==> |Try(list, r).0| <= LK_MAX)
  {
    hide WellFormed, Sticks, Conflicts;
    CutGrowsExactly(list, r);
  }

  // ---- what a request is answered ---------------------------------------------------

  /** One F_SETLK: blocked exactly when another owner holds some byte of it incompatibly;
      else refused for want of room exactly when the table, as the 32-bit count has it, has
      fewer than two of its 256 places left; else granted, and then the bytes asked for, and no others, are held as
      asked.  An unlock is always granted.  A refusal changes nothing. */
  lemma TryExactly(list: seq<Lock>, r: Request, file: nat, owner: nat, byte: nat)
    requires WellFormed(list) && ValidRequest(r)
    ensures |list| + 2 < TWO_32 ==> (|list| + 2) % TWO_32 == |list| + 2
    ensures var (after, out) := Try(list, r);
            && (out == Blocked <==> HeldAgainst(list, r))
            && (out == NoLocks <==> r.op.Some? && !HeldAgainst(list, r) && (|list| + 2) % TWO_32 > 256)
            && (out != Granted ==> after == list)
            && (out == Granted ==>
                  Held(after, file, owner, byte) ==
                  if file == r.file && owner == r.owner && r.start <= byte <= r.end then r.op else Held(list, file, owner, byte))
  {
    hide Applied, Conflicts, WellFormed;
    if r.op.Some? { ConflictMeaning(list, r); }
    ApplyMeaning(list, r, file, owner, byte);
  }

  // ---- who is told ------------------------------------------------------------

  predicate Changes(list: seq<Lock>, r: Request) {
    exists i :: 0 <= i < |list| && Touches(list[i], r)
  }

  lemma {:induction false} UntouchedCut(list: seq<Lock>, r: Request)
    requires ValidRequest(r) && !Changes(list, r)
    ensures Cut(list, r) == list
  {
    if list != [] {
      assert !Touches(list[0], r);
      assert forall i :: 0 <= i < |list[1..]| ==> list[1..][i] == list[i + 1];
      UntouchedCut(list[1..], r);
    }
  }

  lemma UntouchedStillBlocks(list: seq<Lock>, r: Request, waiting: Request)
    requires ValidRequest(r) && !Changes(list, r) && Conflicts(list, waiting)
    ensures Conflicts(Applied(list, r), waiting)
  {
    UntouchedCut(list, r);
    var i :| 0 <= i < |list| && Blocks(list[i], waiting);
    assert Applied(list, r)[|NewLock(r)| + i] == list[i];
  }

  /** Waiters are told whenever it matters: if a granted request lets a blocked
      one through, the code has seen an entry change and rings the channel. */
  lemma UnblockingIsNews(list: seq<Lock>, r: Request, waiting: Request)
    requires ValidRequest(r)
    requires Conflicts(list, waiting) && !Conflicts(Applied(list, r), waiting)
    ensures Changes(list, r)
  {
    if !Changes(list, r) {
      UntouchedStillBlocks(list, r, waiting);
    }
  }

  // ---- the limit is not a limit on unlocks --------------------------------------

  /** Unlocks of bytes 2m, 2m - 2, ... 2, by owner 1 of file 1. */
  function Holes(m: nat): (acts: seq<Action>)
    ensures |acts| == m && forall i :: 0 <= i < m ==> acts[i] == Set(Request(1, 1, 2 * (m - i), 2 * (m - i), None))
  {
    seq(m, i requires 0 <= i < m => Set(Request(1, 1, 2 * (m - i), 2 * (m - i), None)))
  }

  /** The first entry reaches from byte 0 past byte 2m; the others lie above it. */
  predicate Ladder(list: seq<Lock>, m: nat) {
    && list != [] && list[0].file == list[0].owner == 1
    && list[0].start == 0 && 2 * m < list[0].end < TWO_64
    && forall i :: 1 <= i < |list| ==> list[0].end < list[i].start
  }

  /** One unlock near the top of the first entry: one more entry, a shorter first. */
  lemma HoleGrows(list: seq<Lock>, m: nat)
    requires m > 0 && Ladder(list, m)
    ensures var after := Step(list, Set(Request(1, 1, 2 * m, 2 * m, None)));
            |after| == |list| + 1 && Ladder(after, m - 1)
  {
    hide Cut;
    var r := Request(1, 1, 2 * m, 2 * m, None);
    assert !Changes(list[1..], r);
    UntouchedCut(list[1..], r);
    var ps := Pieces(list[0], r);
    assert ps == [list[0].(end := 2 * m - 1), list[0].(start := 2 * m + 1)];
    CutFirst(list, r);
    var after := ps + list[1..];
    assert Step(list, Set(r)) == after;
    assert after[1].start == 2 * m + 1;
    assert forall i :: 2 <= i < |after| ==> after[i] == list[i - 1];
  }

  lemma CutFirst(list: seq<Lock>, r: Request)
    requires ValidRequest(r) && list != [] && r.op.None?
    ensures Applied(list, r) == Pieces(list[0], r) + Cut(list[1..], r)
  {
  }

  lemma {:induction false} HolesGrow(list: seq<Lock>, m: nat)
    requires Ladder(list, m)
    ensures |Run(list, Holes(m))| == |list| + m
    decreases m
  {
    hide Step, Ladder;
    assert forall i :: 0 <= i < m ==> ValidAction(Holes(m)[i]) by { HolesValid(list, m); }
    if m > 0 {
      HoleGrows(list, m);
      assert Holes(m)[1..] == Holes(m - 1);
      HolesGrow(Step(list, Holes(m)[0]), m - 1);
    }
  }

  lemma HolesValid(list: seq<Lock>, m: nat)
    requires Ladder(list, m)
    ensures forall i :: 0 <= i < m ==> ValidAction(Holes(m)[i])
  {
  }

  /** Unlocks have no bound: one lock on a whole file and `n` one-byte unlocks leave
      n + 1 entries, for every `n` the byte range has room for. */
  lemma UnlocksGrowWithoutBound(n: nat)
    requires 2 * n < TWO_64 - 1
    ensures var acts := [Set(Request(1, 1, 0, TWO_64 - 1, Some(Write)))] + Holes(n);
            && (forall i :: 0 <= i < |acts| ==> ValidAction(acts[i]))
            && |Run([], acts)| == n + 1
  {
    hide Cut;
    var grant := Set(Request(1, 1, 0, TWO_64 - 1, Some(Write)));
    var acts := [grant] + Holes(n);
    NothingYet(grant.r);
    var one := [Lock(1, 1, 0, TWO_64 - 1, Write)];
    assert Step([], grant) == one;
    assert Ladder(one, n);
    HolesGrow(one, n);
    HolesValid(one, n);
    assert acts[1..] == Holes(n);
  }

  /** Such a run makes the count wrap: 2^32 entries counted as none, and the next lock
      is let in. */
  lemma CountWraps() returns (acts: seq<Action>)
    ensures forall i :: 0 <= i < |acts| ==> ValidAction(acts[i])
    ensures var list := Run([], acts); |list| == TWO_32 && Count(list) == 0 && !Full(list)
  {
    hide Run;
    acts := [Set(Request(1, 1, 0, TWO_64 - 1, Some(Write)))] + Holes(TWO_32 - 1);
    UnlocksGrowWithoutBound(TWO_32 - 1);
  }

  function Up(count: nat): nat {
    (count + 1) % TWO_32
  }

  function Down(count: nat): nat {
    (count - 1) % TWO_32
  }

  /** The count follows the list across its own wrap. */
  lemma CountFollows(a: seq<Lock>, b: seq<Lock>)
    ensures |b| == |a| ==> Count(b) == Count(a)
    ensures |b| == |a| + 1 ==> Count(b) == Up(Count(a))
    ensures |b| == |a| - 1 ==> Count(b) == Down(Count(a))
  {
  }

  // ---- the table the kernel keeps -----------------------------------------------

  class LockTable {
    var list: seq<Lock>       // darwin_lk_head, front to back
    var count: nat            // darwin_lk_count, 32 bits

    ghost predicate Valid()
      reads this
    {
      WellFormed(list) && Exclusive(list) && count == Count(list)
    }

    constructor ()
      ensures Valid() && list == []
    {
      list, count := [], 0;
    }

    /** darwin_lk_conflict: the first blocker in list order, or none. */
    method Conflict(r: Request) returns (found: Option<Lock>)
      ensures found.None? <==> !Conflicts(list, r)
      ensures found.Some? ==> (exists i ::
          0 <= i < |list| && list[i] == found.value && Blocks(list[i], r) && !Conflicts(list[..i], r))
    {
      var i := 0;
      while i < |list|
        invariant 0 <= i <= |list|
        invariant !Conflicts(list[..i], r)
      {
        var lk := list[i];
        if !(lk.owner == r.owner || !Overlaps(lk, r)) && (lk.kind == Write || r.op == Some(Write)) {
          return Some(lk);
        }
        assert forall k :: 0 <= k <= i ==> list[..i + 1][k] == if k < i then list[..i][k] else lk;
        i := i + 1;
      }
      assert list[..i] == list;
      found := None;
    }

    /** darwin_lk_apply.  `spare` is the entry the request brought for a split; the
        assertion in the loop is the kernel's own, and is never wrong. */
    method Apply(r: Request) returns (changed: bool)
      requires ValidRequest(r) && WellFormed(list) && count == Count(list)
      modifies this
      ensures list == Applied(old(list), r) && count == Count(list)
      ensures changed <==> Changes(old(list), r)
    {
      hide Cut, Splits, WellFormed, Changes, Pieces, Count, Up, Down;
      ghost var before := list;
      ghost var k := 0;
      var spare := true;
      var i := 0;
      changed := false;
      OneSplit(before, r);
      NothingYet(r);
      assert before[0..] == before && before[..0] == [];
      while i < |list|
        invariant 0 <= k <= |before| && i <= |list|
        invariant list[..i] == Cut(before[..k], r) && list[i..] == before[k..]
        invariant count == Count(list)
        invariant spare <==> Splits(before[..k], r) == 0
        invariant Splits(before[..k], r) + Splits(before[k..], r) <= 1
        invariant changed <==> Changes(before[..k], r)
        decreases |before| - k
      {
        var lk := list[i];
        CutNext(before, k, r);
        assert lk == list[i..][0];
        RangesValid(before, k);
        PiecesCases(lk, r);
        Splice(list, i, before, k, Pieces(lk, r));
        CountFollows(list, list[..i] + Pieces(lk, r) + list[i + 1..]);
        if lk.owner != r.owner || !Overlaps(lk, r) {
          assert list == list[..i] + [lk] + list[i + 1..];
          i := i + 1;
        } else {
          changed := true;
          if lk.start >= r.start && lk.end <= r.end {
            list := list[..i] + [] + list[i + 1..];
            count := Down(count);
          } else if lk.start < r.start && lk.end > r.end {
            assert spare;
            spare := false;
            var tail := lk.(start := (r.end + 1) % TWO_64);
            list := list[..i] + [lk.(end := (r.start - 1) % TWO_64), tail] + list[i + 1..];
            count := Up(count);
            i := i + 2;
          } else if lk.start < r.start {
            list := list[..i] + [lk.(end := (r.start - 1) % TWO_64)] + list[i + 1..];
            i := i + 1;
          } else {
            list := list[..i] + [lk.(start := (r.end + 1) % TWO_64)] + list[i + 1..];
            i := i + 1;
          }
        }
        k := k + 1;
      }
      assert before[..k] == before && list[..i] == list;
      if r.op.Some? {
        CountFollows(list, [Lock(r.file, r.owner, r.start, r.end, r.op.value)] + list);
        list := [Lock(r.file, r.owner, r.start, r.end, r.op.value)] + list;
        count := Up(count);
      }
    }

    /** darwin_lk_try. */
    method TrySet(r: Request) returns (out: Outcome, news: bool)
      requires Valid() && ValidRequest(r)
      modifies this
      ensures Valid()
      ensures list == Try(old(list), r).0 && out == Try(old(list), r).1
      ensures news <==> out == Granted && Changes(old(list), r)
    {
      StepKeeps(list, Set(r));
      if r.op.Some? {
        var blocker := Conflict(r);
        if blocker.Some? {
          return Blocked, false;
        }
        if (count + 2) % TWO_32 > LK_MAX {
          return NoLocks, false;
        }
      }
      news := Apply(r);
      out := Granted;
    }

    /** darwin_lk_drop. */
    method Release(owner: nat, file: nat) returns (news: bool)
      requires Valid()
      modifies this
      ensures Valid()
      ensures list == Dropped(old(list), owner, file)
      ensures news <==> list != old(list)
    {
      StepKeeps(list, Drop(owner, file));
      hide Dropped, WellFormed, Exclusive, Count, Up, Down;
      NothingDropped(owner, file);
      assert list[..0] == [];
      ghost var before := list;
      ghost var k := 0;
      var dead := 0;
      var i := 0;
      assert before[0..] == before;
      while i < |list|
        invariant 0 <= k <= |before| && i <= |list|
        invariant list[..i] == Dropped(before[..k], owner, file) && list[i..] == before[k..]
        invariant count == Count(list) && dead == |before| - |list| && 0 <= dead
        invariant dead == 0 ==> list == before
        decreases |before| - k
      {
        assert before[..k + 1] == before[..k] + [before[k]];
        DroppedAppend(before[..k], before[k], owner, file);
        var lk := list[i];
        Splice(list, i, before, k, if Drops(lk, owner, file) then [] else [lk]);
        assert list == list[..i] + [lk] + list[i + 1..];
        if lk.owner == owner && (file == 0 || lk.file == file) {
          CountFollows(list, list[..i] + [] + list[i + 1..]);
          list := list[..i] + [] + list[i + 1..];
          count := Down(count);
          dead := dead + 1;
        } else {
          i := i + 1;
        }
        k := k + 1;
      }
      assert before[..k] == before && list[..i] == list;
      news := dead > 0;
    }
  }

  lemma {:induction false} CutAppend(list: seq<Lock>, x: Lock, r: Request)
    requires ValidRequest(r)
    ensures Cut(list + [x], r) == Cut(list, r) + Pieces(x, r)
    ensures Splits(list + [x], r) == Splits(list, r) + (if Sticks(x, r) then 1 else 0)
  {
    if list == [] {
      assert list + [x] == [x] && [x][1..] == [];
    } else {
      assert (list + [x])[0] == list[0] && (list + [x])[1..] == list[1..] + [x];
      CutAppend(list[1..], x, r);
    }
  }

  /** Replacing the entry the loop stands on, in the list as relinked so far. */
  lemma Splice(list: seq<Lock>, i: nat, before: seq<Lock>, k: nat, ps: seq<Lock>)
    requires i < |list| && k <= |before| && list[i..] == before[k..]
    ensures k < |before| && list[i] == before[k]
    ensures var spliced := list[..i] + ps + list[i + 1..];
            && |spliced| == |list| - 1 + |ps|
            && spliced[..i + |ps|] == list[..i] + ps
            && spliced[i + |ps|..] == before[k + 1..]
  {
    assert list[i..][0] == before[k..][0];
    assert list[i + 1..] == list[i..][1..] == before[k..][1..] == before[k + 1..];
  }

  /** The cases of the loop body; the 64-bit ends never wrap. */
  lemma PiecesCases(lk: Lock, r: Request)
    requires ValidRequest(r) && ValidRange(lk.start, lk.end)
    ensures var left := lk.(end := (r.start - 1) % TWO_64);
            var right := lk.(start := (r.end + 1) % TWO_64);
            Pieces(lk, r) ==
              if lk.owner != r.owner || !Overlaps(lk, r) then [lk]
              else if lk.start >= r.start && lk.end <= r.end then []
              else if lk.start < r.start && lk.end > r.end then [left, right]
              else if lk.start < r.start then [left]
              else [right]
  {
  }

  lemma NothingYet(r: Request)
    requires ValidRequest(r)
    ensures Cut([], r) == [] && Splits([], r) == 0 && !Changes([], r)
  {
  }

  /** The loop's next entry, seen from both ends of the original list. */
  lemma CutNext(list: seq<Lock>, k: nat, r: Request)
    requires ValidRequest(r) && k < |list|
    ensures Cut(list[..k + 1], r) == Cut(list[..k], r) + Pieces(list[k], r)
    ensures var one := if Sticks(list[k], r) then 1 else 0;
            Splits(list[..k + 1], r) == Splits(list[..k], r) + one
            && Splits(list[k..], r) == one + Splits(list[k + 1..], r)
    ensures Changes(list[..k + 1], r) <==> Changes(list[..k], r) || Touches(list[k], r)
  {
    assert list[..k + 1] == list[..k] + [list[k]];
    CutAppend(list[..k], list[k], r);
    assert list[k..][1..] == list[k + 1..];
    assert forall i :: 0 <= i < k ==> list[..k + 1][i] == list[..k][i];
    assert list[..k + 1][k] == list[k];
  }

  lemma NothingDropped(owner: nat, file: nat)
    ensures Dropped([], owner, file) == []
  {
  }

  lemma {:induction false} DroppedAppend(list: seq<Lock>, x: Lock, owner: nat, file: nat)
    ensures Dropped(list + [x], owner, file)
         == Dropped(list, owner, file) + (if Drops(x, owner, file) then [] else [x])
  {
    if list == [] {
      assert list + [x] == [x] && [x][1..] == [];
    } else {
      assert (list + [x])[0] == list[0] && (list + [x])[1..] == list[1..] + [x];
      DroppedAppend(list[1..], x, owner, file);
    }
  }
}
