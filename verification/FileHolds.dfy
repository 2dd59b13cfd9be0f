/** The file layer above the volume (fs/fs.c): names, files, handles and holds.

    Every operation runs under the volume lock, so a run is a sequence of whole
    operations through any number of handles.  The volume below is a map of names and
    a map of files; each of its edits either happens or, by the action's flag, fails
    and changes nothing, and a size lookup (`found`) may fail too.  An operation that
    does not apply changes nothing. */
module FileHolds {
  import opened OpenTable

  /** `orphan`: waiting in the private directory, without a name. */
  datatype File = File(data: seq<bv8>, orphan: bool)

  /** `xid` non-zero: opened under a checkpoint, never counted, never refreshed. */
  datatype Handle = Handle(ino: nat, size: nat, gen: nat, xid: nat)

  /** History beside a counted handle: the length it last found or made, and whether its
      last refresh failed after the file's length had moved from that. */
  datatype Note = Note(knew: nat, missed: bool)

  datatype State = State(
    rows: seq<Row>,
    gen: nat,
    names: map<string, nat>,
    files: map<nat, File>,
    handles: map<nat, Handle>,
    stuck: set<nat>,           // orphans whose reap failed, left for the next mount
    notes: map<nat, Note>)     // history only: no operation answers by it

  datatype Where = At(off: nat) | Append

  datatype Action =
    | Create(name: string, ino: nat)
    | Open(h: nat, name: string)
    | OpenView(h: nat, ino: nat, size: nat, xid: nat)
    | Share(h: nat, copy: nat)                         // fs_hold, then the struct is copied
    | Close(h: nat, reaped: bool)
    | Unlink(name: string, done: bool)
    | Rename(from: string, to: string, done: bool, reaped: bool)
    | Look(h: nat, found: bool)                        // fs_length, or a read's clamp
    | PWrite(h: nat, at: Where, buf: seq<bv8>, found: bool, grown: bool, put: bool, junk: seq<bv8>)
    | Truncate(h: nat, size: nat, found: bool, done: bool)

  // ---- the volume's edits ------------------------------------------------------------

  function Zeros(n: nat): seq<bv8> {
    seq(n, i requires 0 <= i => 0)
  }

  /** `buf` laid over `data` at `off`, the gap before it zero. */
  function Overlay(data: seq<bv8>, off: nat, buf: seq<bv8>): (r: seq<bv8>)
    ensures |r| == if off + |buf| > |data| then off + |buf| else |data|
    ensures forall i :: off <= i < off + |buf| ==> r[i] == buf[i - off]
    ensures forall i :: 0 <= i < |data| && !(off <= i < off + |buf|) ==> r[i] == data[i]
    ensures forall i :: |data| <= i < off ==> r[i] == 0
  {
    var before := if off <= |data| then data[..off] else data + Zeros(off - |data|);
    before + buf + if off + |buf| <= |data| then data[off + |buf|..] else []
  }

  function Resized(data: seq<bv8>, n: nat): (r: seq<bv8>)
    ensures |r| == n
    ensures forall i :: 0 <= i < n ==> r[i] == if i < |data| then data[i] else 0
  {
    if n <= |data| then data[..n] else data + Zeros(n - |data|)
  }

  /** The bytes of `buf` that fall inside `data`, put there. */
  function Laid(data: seq<bv8>, off: nat, buf: seq<bv8>): (r: seq<bv8>)
    ensures |r| == |data|
    ensures forall i :: 0 <= i < |data| ==> r[i] == if off <= i < off + |buf| then buf[i - off] else data[i]
  {
    seq(|data|, i requires 0 <= i < |data| => if off <= i < off + |buf| then buf[i - off] else data[i])
  }

  /** The length of a file, 0 for one that is not there. */
  function Length(s: State, ino: nat): nat {
    if ino in s.files then |s.files[ino].data| else 0
  }

  predicate Counted(h: Handle) {
    h.xid == 0
  }

  // ---- the operations ----------------------------------------------------------------

  function NoteOf(s: State, h: nat): Note {
    if h in s.notes then s.notes[h] else Note(0, false)
  }

  /** handle_refresh.  The generation is adopted even when the lookup fails. */
  function Refreshed(s: State, h: nat, found: bool): State
    requires h in s.handles
  {
    var hd := s.handles[h];
    var length := Length(s, hd.ino);
    if !Counted(hd) || hd.gen == s.gen then s
    else if found then
      s.(handles := s.handles[h := hd.(size := length, gen := s.gen)], notes := s.notes[h := Note(length, false)])
    else
      var knew := NoteOf(s, h).knew;
      s.(handles := s.handles[h := hd.(gen := s.gen)], notes := s.notes[h := Note(knew, length != knew)])
  }

  function Opened(s: State, h: nat, name: string): State {
    if h !in s.handles && name in s.names && s.names[name] in s.files then
      var ino := s.names[name];
      var (ok, rows) := Hold(s.rows, ino);
      if ok then
        s.(rows := rows, handles := s.handles[h := Handle(ino, Length(s, ino), s.gen, 0)],
           notes := s.notes[h := Note(Length(s, ino), false)])
      else s
    else s
  }

  function Shared(s: State, h: nat, copy: nat): State {
    if h in s.handles && copy !in s.handles then
      if !Counted(s.handles[h]) then s.(handles := s.handles[copy := s.handles[h]])
      else
        var (ok, rows) := Hold(s.rows, s.handles[h].ino);
        if ok then
          s.(rows := rows, handles := s.handles[copy := s.handles[h]], notes := s.notes[copy := NoteOf(s, h)])
        else s
    else s
  }

  /** fs_apfs_reap: an orphan goes, or stays for the next mount. */
  function Reap(s: State, ino: nat, reaped: bool): State {
    if reaped && ino in s.files && s.files[ino].orphan then s.(files := s.files - {ino})
    else s.(stuck := s.stuck + {ino})
  }

  function Closed(s: State, h: nat, reaped: bool): State {
    if h in s.handles then
      var hd := s.handles[h];
      if !Counted(hd) then s.(handles := s.handles - {h})
      else if Refs(s.rows, hd.ino) == 0 then s            // a lost hold, reported; the handle stays
      else
        var u := s.(rows := Release(s.rows, hd.ino), handles := s.handles - {h});
        if Refs(s.rows, hd.ino) == 1 && IsNameless(s.rows, hd.ino) then
          Reap(u, hd.ino, reaped).(gen := s.gen + 1)
        else u
    else s
  }

  /** The name goes; the file goes with it unless something holds it. */
  function Unlinked(s: State, name: string, done: bool): State {
    if done && name in s.names && s.names[name] in s.files then
      var ino := s.names[name];
      var u := s.(names := s.names - {name}, gen := s.gen + 1);
      if Refs(s.rows, ino) > 0 then
        u.(files := s.files[ino := s.files[ino].(orphan := true)], rows := Mark(s.rows, ino))
      else u.(files := s.files - {ino})
    else s
  }

  /** What the volume's rename does: the destination's file, if any, is orphaned. */
  function Moved(s: State, from: string, to: string): State
    requires from in s.names
  {
    var files := if to in s.names && s.names[to] in s.files
                 then s.files[s.names[to] := s.files[s.names[to]].(orphan := true)]
                 else s.files;
    s.(names := (s.names - {from})[to := s.names[from]], files := files)
  }

  function Renamed(s: State, from: string, to: string, done: bool, reaped: bool): State {
    if done && from in s.names then
      if from == to then s.(gen := s.gen + 1)
      else
        var u := Moved(s, from, to).(gen := s.gen + 1);
        if to !in s.names then u
        else
          var victim := s.names[to];
          if Refs(s.rows, victim) > 0 then u.(rows := Mark(s.rows, victim)) else Reap(u, victim, reaped)
    else s
  }

  function Offset(at: Where, size: nat): nat {
    match at
    case At(off) => off
    case Append => size
  }

  /** A write: refresh, place, grow when it runs past the length the handle goes by, put,
      and move the generation on.  The volume grows only a file that is shorter, and puts
      nothing past a file's end.  A put that fails after a grow leaves `junk` where it
      would have gone. */
  function Written(s: State, a: Action): State
    requires a.PWrite?
  {
    if a.h in s.handles && Counted(s.handles[a.h]) && s.handles[a.h].ino in s.files then
      var r := Refreshed(s, a.h, a.found);
      var was := r.files[s.handles[a.h].ino].data;
      var size := r.handles[a.h].size;
      var off := Offset(a.at, size);
      var end := off + |a.buf|;
      var grows := end > size;
      if (grows && !a.grown) || (!a.put && (!grows || |a.junk| != |a.buf|)) then r
      else
        var room := if grows && end > |was| then Resized(was, end) else was;
        Put(r, a.h, Laid(room, off, if a.put then a.buf else a.junk),
            if grows then end else size,
            if grows && a.put then 2 else 1,
            NoteOf(r, a.h).missed && !(grows && end >= |was|))
    else s
  }

  /** New contents for a handle's file, the handle `bumps` generations on with `size`. */
  function Put(s: State, h: nat, data: seq<bv8>, size: nat, bumps: nat, missed: bool): State
    requires h in s.handles && s.handles[h].ino in s.files
  {
    var ino := s.handles[h].ino;
    s.(files := s.files[ino := s.files[ino].(data := data)],
       gen := s.gen + bumps,
       handles := s.handles[h := s.handles[h].(size := size, gen := s.gen + bumps)],
       notes := s.notes[h := Note(size, missed)])
  }

  /** ftruncate: longer or shorter by the length the handle goes by; the volume lengthens
      only a shorter file and shortens only a longer one. */
  function Truncated(s: State, h: nat, size: nat, found: bool, done: bool): State {
    if h in s.handles && Counted(s.handles[h]) && s.handles[h].ino in s.files then
      var r := Refreshed(s, h, found);
      var was := r.files[s.handles[h].ino].data;
      var known := r.handles[h].size;
      if size == known || !done then r
      else
        var stands := if size > known then |was| >= size else |was| <= size;
        Put(r, h, if stands then was else Resized(was, size), size, 1,
            NoteOf(r, h).missed && stands && |was| != size)
    else s
  }

  function Step(s: State, a: Action): State {
    match a
    case Create(name, ino) =>
      if name !in s.names && ino !in s.files then
        s.(names := s.names[name := ino], files := s.files[ino := File([], false)],
           stuck := s.stuck - {ino}, gen := s.gen + 1)
      else s
    case Open(h, name) => Opened(s, h, name)
    case OpenView(h, ino, size, xid) =>
      if h !in s.handles && xid != 0 then s.(handles := s.handles[h := Handle(ino, size, s.gen, xid)]) else s
    case Share(h, copy) => Shared(s, h, copy)
    case Close(h, reaped) => Closed(s, h, reaped)
    case Unlink(name, done) => Unlinked(s, name, done)
    case Rename(from, to, done, reaped) => Renamed(s, from, to, done, reaped)
    case Look(h, found) => if h in s.handles then Refreshed(s, h, found) else s
    case PWrite(_, _, _, _, _, _, _) => Written(s, a)
    case Truncate(h, size, found, done) => Truncated(s, h, size, found, done)
  }

  function Run(s: State, acts: seq<Action>): State
    decreases |acts|
  {
    if acts == [] then s else Run(Step(s, acts[0]), acts[1..])
  }

  // ---- what every step keeps -----------------------------------------------------------

  ghost predicate Named(names: map<string, nat>, ino: nat) {
    exists n :: n in names && names[n] == ino
  }

  ghost predicate OneNameEach(names: map<string, nat>) {
    forall n, m :: n in names && m in names && names[n] == names[m] ==> n == m
  }

  /** The counted handles on a file. */
  function Holders(handles: map<nat, Handle>, ino: nat): set<nat> {
    set h | h in handles && Counted(handles[h]) && handles[h].ino == ino
  }

  /** One row a file, its count the counted handles on it. */
  ghost predicate Counts(s: State) {
    && OneRowEach(s.rows)
    && forall ino :: Refs(s.rows, ino) == |Holders(s.handles, ino)|
  }

  /** One name a file; a name's file is there; a file without one is an orphan. */
  ghost predicate Names(s: State) {
    && (forall ino :: Named(s.names, ino) ==> ino in s.files)
    && OneNameEach(s.names)
    && (forall ino :: ino in s.files ==> (s.files[ino].orphan <==> !Named(s.names, ino)))
  }

  /** A held file is there, and marked nameless exactly when it has no name; a file
      with neither name nor holder is one whose reap failed. */
  ghost predicate Lifetimes(s: State) {
    && (forall ino :: Refs(s.rows, ino) > 0 ==> ino in s.files)
    && (forall ino :: Refs(s.rows, ino) > 0 ==> (IsNameless(s.rows, ino) <==> !Named(s.names, ino)))
    && (forall ino :: ino in s.files ==> Named(s.names, ino) || Refs(s.rows, ino) > 0 || ino in s.stuck)
  }

  /** What a counted handle knows of its file's length: of the volume's own generation it
      is wrong exactly when its last refresh missed a change. */
  ghost predicate LengthOk(s: State, hd: Handle, n: Note) {
    && hd.gen <= s.gen && hd.size == n.knew
    && (hd.gen == s.gen ==> (hd.size != Length(s, hd.ino) <==> n.missed))
  }

  ghost predicate Lengths(s: State) {
    forall h :: h in s.handles && Counted(s.handles[h]) ==> h in s.notes && LengthOk(s, s.handles[h], s.notes[h])
  }

  ghost predicate Inv(s: State) {
    Counts(s) && Names(s) && Lifetimes(s) && Lengths(s)
  }

  /** A volume just mounted: nothing open, every file named or left by an earlier boot. */
  ghost predicate Init(s: State) {
    && |s.rows| == OPEN_MAX && (forall i :: 0 <= i < |s.rows| ==> s.rows[i].refs == 0)
    && s.handles == map[] && s.notes == map[] && s.gen == 1
    && Names(s)
    && forall ino :: ino in s.files && s.files[ino].orphan ==> ino in s.stuck
  }

  // ---- names and handles come and go -------------------------------------------------

  lemma NameAdded(names: map<string, nat>, n: string, ino: nat)
    requires OneNameEach(names) && n !in names && !Named(names, ino)
    ensures OneNameEach(names[n := ino])
    ensures forall x :: Named(names[n := ino], x) <==> Named(names, x) || x == ino
  {
    var after := names[n := ino];
    assert n in after && after[n] == ino;
    forall x | Named(names, x)
      ensures Named(after, x)
    {
      var m :| m in names && names[m] == x;
      assert m in after && after[m] == x;
    }
  }

  lemma NameDropped(names: map<string, nat>, n: string)
    requires OneNameEach(names) && n in names
    ensures OneNameEach(names - {n})
    ensures forall x :: Named(names - {n}, x) <==> Named(names, x) && x != names[n]
  {
    var after := names - {n};
    forall x | Named(names, x) && x != names[n]
      ensures Named(after, x)
    {
      var m :| m in names && names[m] == x;
      assert m in after && after[m] == x;
    }
  }

  lemma HolderAdded(handles: map<nat, Handle>, h: nat, hd: Handle, ino: nat)
    requires h !in handles
    ensures |Holders(handles[h := hd], ino)| == |Holders(handles, ino)| + if Counted(hd) && hd.ino == ino then 1 else 0
  {
    var after := handles[h := hd];
    if Counted(hd) && hd.ino == ino {
      assert Holders(after, ino) == Holders(handles, ino) + {h};
    } else {
      assert Holders(after, ino) == Holders(handles, ino);
    }
  }

  lemma HolderDropped(handles: map<nat, Handle>, h: nat, ino: nat)
    requires h in handles
    ensures |Holders(handles - {h}, ino)|
            == |Holders(handles, ino)| - if Counted(handles[h]) && handles[h].ino == ino then 1 else 0
  {
    var after := handles - {h};
    if Counted(handles[h]) && handles[h].ino == ino {
      assert Holders(after, ino) == Holders(handles, ino) - {h};
    } else {
      assert Holders(after, ino) == Holders(handles, ino);
    }
  }

  lemma HolderKept(handles: map<nat, Handle>, h: nat, hd: Handle, ino: nat)
    requires h in handles && handles[h].ino == hd.ino && handles[h].xid == hd.xid
    ensures Holders(handles[h := hd], ino) == Holders(handles, ino)
  {
  }

  /** A counted handle is a hold, so its file is there. */
  lemma HandleHolds(s: State, h: nat)
    requires Counts(s) && Lifetimes(s) && h in s.handles && Counted(s.handles[h])
    ensures Refs(s.rows, s.handles[h].ino) > 0 && s.handles[h].ino in s.files
  {
    hide Refs, IsNameless, OneRowEach;
    var ino := s.handles[h].ino;
    assert h in Holders(s.handles, ino);
    assert Refs(s.rows, ino) == |Holders(s.handles, ino)|;
  }

  // ---- one operation at a time --------------------------------------------------------

  lemma CreateKeeps(s: State, name: string, ino: nat)
    requires Inv(s) && name !in s.names && ino !in s.files
    ensures Inv(Step(s, Create(name, ino)))
  {
    hide Refs, IsNameless, OneRowEach, Named, OneNameEach, Holders;
    assert !Named(s.names, ino) by { Unnamed(s, ino); }
    NameAdded(s.names, name, ino);
  }

  lemma Unnamed(s: State, ino: nat)
    requires Names(s) && ino !in s.files
    ensures !Named(s.names, ino)
  {
  }

  lemma OpenKeeps(s: State, h: nat, name: string)
    requires Inv(s)
    ensures Inv(Opened(s, h, name))
  {
    hide Refs, IsNameless, OneRowEach, OneNameEach, Holders, Hold;
    var u := Opened(s, h, name);
    if u != s {
      var ino := s.names[name];
      assert Named(s.names, ino);
      HeldOnce(s, h, Handle(ino, Length(s, ino), s.gen, 0), Note(Length(s, ino), false));
    }
  }

  /** A new counted handle on a file that is there, with the hold it needs. */
  lemma HeldOnce(s: State, h: nat, hd: Handle, n: Note)
    requires Inv(s) && h !in s.handles && Counted(hd) && hd.ino in s.files && LengthOk(s, hd, n)
    requires Hold(s.rows, hd.ino).0
    requires Refs(s.rows, hd.ino) > 0 || Named(s.names, hd.ino)
    ensures Inv(s.(rows := Hold(s.rows, hd.ino).1, handles := s.handles[h := hd], notes := s.notes[h := n]))
  {
    hide Refs, IsNameless, OneRowEach, OneNameEach, Holders, Hold, Named;
    var u := s.(rows := Hold(s.rows, hd.ino).1, handles := s.handles[h := hd], notes := s.notes[h := n]);
    HoldMeaning(s.rows, hd.ino);
    NoRefsNoMark(s.rows, hd.ino);
    forall ino
      ensures Refs(u.rows, ino) == |Holders(u.handles, ino)|
    {
      HolderAdded(s.handles, h, hd, ino);
    }
  }

  lemma NoRefsNoMark(rows: seq<Row>, ino: nat)
    ensures Refs(rows, ino) == 0 ==> !IsNameless(rows, ino)
  {
    hide RowFrom;
  }

  lemma ShareKeeps(s: State, h: nat, copy: nat)
    requires Inv(s)
    ensures Inv(Shared(s, h, copy))
  {
    hide Refs, IsNameless, OneRowEach, OneNameEach, Holders, Hold, Named;
    var u := Shared(s, h, copy);
    if u != s {
      if Counted(s.handles[h]) {
        HandleHolds(s, h);
        HeldOnce(s, copy, s.handles[h], s.notes[h]);
      } else {
        UncountedKeeps(s, copy, s.handles[h]);
      }
    }
  }

  lemma UncountedKeeps(s: State, h: nat, hd: Handle)
    requires Inv(s) && h !in s.handles && !Counted(hd)
    ensures Inv(s.(handles := s.handles[h := hd]))
  {
    hide Refs, IsNameless, OneRowEach, OneNameEach, Holders, Named;
    forall ino
      ensures Refs(s.rows, ino) == |Holders(s.handles[h := hd], ino)|
    {
      HolderAdded(s.handles, h, hd, ino);
    }
  }

  /** The bookkeeping of a close, before any reap: the counts follow the handles. */
  lemma ReleaseCounts(s: State, h: nat)
    requires Inv(s) && h in s.handles && Counted(s.handles[h])
    ensures Counts(s.(rows := Release(s.rows, s.handles[h].ino), handles := s.handles - {h}))
  {
    hide Refs, IsNameless, OneRowEach, OneNameEach, Holders, Release, Named;
    var ino := s.handles[h].ino;
    HandleHolds(s, h);
    ReleaseMeaning(s.rows, ino);
    forall x
      ensures Refs(Release(s.rows, ino), x) == |Holders(s.handles - {h}, x)|
    {
      HolderDropped(s.handles, h, x);
    }
  }

  lemma CloseKeeps(s: State, h: nat, reaped: bool)
    requires Inv(s)
    ensures Inv(Closed(s, h, reaped))
  {
    hide Refs, IsNameless, OneRowEach, OneNameEach, Holders, Release, Named;
    if h in s.handles {
      if Counted(s.handles[h]) {
        var ino := s.handles[h].ino;
        HandleHolds(s, h);
        ReleaseCounts(s, h);
        ReleaseMeaning(s.rows, ino);
      } else {
        forall ino
          ensures Refs(s.rows, ino) == |Holders(s.handles - {h}, ino)|
        {
          HolderDropped(s.handles, h, ino);
        }
      }
    }
  }

  lemma UnlinkKeeps(s: State, name: string, done: bool)
    requires Inv(s)
    ensures Inv(Unlinked(s, name, done))
  {
    hide Refs, IsNameless, OneRowEach, OneNameEach, Holders, Mark, Named;
    if Unlinked(s, name, done) != s {
      NamedBy(s.names, name);
      NameDropped(s.names, name);
      MarkMeaning(s.rows, s.names[name]);
    }
  }

  /** The names after a rename: the destination's file has lost its one, the source's
      has the other. */
  lemma RenamedNames(names: map<string, nat>, from: string, to: string)
    requires OneNameEach(names) && from in names && from != to
    ensures var after := (names - {from})[to := names[from]];
            && OneNameEach(after)
            && forall x :: Named(after, x) <==> Named(names, x) && (to in names ==> x != names[to])
  {
    hide Named, OneNameEach;
    var ino := names[from];
    if to in names { SameNameSameFile(names, from, to); }
    assert Named(names, ino) by { NamedBy(names, from); }
    NameDropped(names, from);
    var fewer := names - {from};
    var clear := fewer - {to};
    if to in names { NameDropped(fewer, to); } else { assert clear == fewer; }
    NameAdded(clear, to, ino);
    assert clear[to := ino] == fewer[to := ino];
  }

  lemma SameNameSameFile(names: map<string, nat>, n: string, m: string)
    requires OneNameEach(names) && n in names && m in names && n != m
    ensures names[n] != names[m]
  {
  }

  lemma NamedBy(names: map<string, nat>, n: string)
    requires n in names
    ensures Named(names, names[n])
  {
  }

  lemma RenameKeeps(s: State, from: string, to: string, done: bool, reaped: bool)
    requires Inv(s)
    ensures Inv(Renamed(s, from, to, done, reaped))
  {
    hide Refs, IsNameless, OneRowEach, OneNameEach, Holders, Mark, Named;
    if done && from in s.names && from != to {
      RenamedNames(s.names, from, to);
      if to in s.names {
        NamedBy(s.names, to);
        MarkMeaning(s.rows, s.names[to]);
      }
    }
  }

  // ---- lengths ----------------------------------------------------------------------

  /** Whether an operation through `h` goes by a wrong length: its last refresh missed a
      change and nothing happened since, or it has to look now, the lookup fails, and the
      file is not as long as the handle last knew. */
  predicate Misses(s: State, h: nat, found: bool)
    requires h in s.handles
  {
    var hd := s.handles[h];
    if hd.gen == s.gen then NoteOf(s, h).missed
    else !found && Length(s, hd.ino) != NoteOf(s, h).knew
  }

  lemma SameNames(s: State, u: State)
    requires Names(s) && u.names == s.names && u.files.Keys == s.files.Keys
    requires forall ino :: ino in s.files ==> u.files[ino].orphan == s.files[ino].orphan
    ensures Names(u)
  {
    hide Named, OneNameEach;
  }

  /** A refresh leaves a counted handle of the volume's generation, wrong exactly when it
      misses. */
  lemma RefreshExactly(s: State, h: nat, found: bool)
    requires Inv(s) && h in s.handles && Counted(s.handles[h])
    ensures var r := Refreshed(s, h, found);
            && Inv(r) && h in r.handles && h in r.notes
            && r == s.(handles := r.handles, notes := r.notes)
            && r.handles[h].ino == s.handles[h].ino && r.handles[h].xid == 0 && r.handles[h].gen == s.gen
            && r.notes[h].missed == Misses(s, h, found)
            && (r.handles[h].size == Length(s, s.handles[h].ino) <==> !Misses(s, h, found))
  {
    hide Refs, IsNameless, OneRowEach, Holders, Names;
    var r := Refreshed(s, h, found);
    forall ino
      ensures Holders(r.handles, ino) == Holders(s.handles, ino)
    {
      HolderKept(s.handles, h, r.handles[h], ino);
    }
    SameNames(s, r);
  }

  /** New contents through a handle: the generation moves, so every other handle is
      stale, and the writer's is right or known to be wrong. */
  lemma PutKeeps(s: State, h: nat, data: seq<bv8>, size: nat, bumps: nat, missed: bool)
    requires Inv(s) && h in s.handles && Counted(s.handles[h]) && s.handles[h].ino in s.files && bumps > 0
    requires missed <==> size != |data|
    ensures Inv(Put(s, h, data, size, bumps, missed))
  {
    hide Refs, IsNameless, OneRowEach, Holders, Names, Named;
    var u := Put(s, h, data, size, bumps, missed);
    forall ino
      ensures Holders(u.handles, ino) == Holders(s.handles, ino)
    {
      HolderKept(s.handles, h, u.handles[h], ino);
    }
    SameNames(s, u);
  }

  lemma WriteKeeps(s: State, a: Action)
    requires Inv(s) && a.PWrite?
    ensures Inv(Written(s, a))
  {
    hide Inv, Laid, Resized, Put, Refreshed, Misses;
    if a.h in s.handles && Counted(s.handles[a.h]) && s.handles[a.h].ino in s.files {
      RefreshExactly(s, a.h, a.found);
      var r := Refreshed(s, a.h, a.found);
      var was := r.files[s.handles[a.h].ino].data;
      var size := r.handles[a.h].size;
      var off := Offset(a.at, size);
      var end := off + |a.buf|;
      var grows := end > size;
      if !((grows && !a.grown) || (!a.put && (!grows || |a.junk| != |a.buf|))) {
        var room := if grows && end > |was| then Resized(was, end) else was;
        PutKeeps(r, a.h, Laid(room, off, if a.put then a.buf else a.junk), if grows then end else size,
                 if grows && a.put then 2 else 1, NoteOf(r, a.h).missed && !(grows && end >= |was|));
      }
    }
  }

  lemma TruncateKeeps(s: State, h: nat, size: nat, found: bool, done: bool)
    requires Inv(s)
    ensures Inv(Truncated(s, h, size, found, done))
  {
    hide Inv, Resized, Put, Refreshed, Misses;
    if h in s.handles && Counted(s.handles[h]) && s.handles[h].ino in s.files {
      RefreshExactly(s, h, found);
      var r := Refreshed(s, h, found);
      var was := r.files[s.handles[h].ino].data;
      var known := r.handles[h].size;
      if size != known && done {
        var stands := if size > known then |was| >= size else |was| <= size;
        PutKeeps(r, h, if stands then was else Resized(was, size), size, 1,
                 NoteOf(r, h).missed && stands && |was| != size);
      }
    }
  }

  // ---- whole runs -------------------------------------------------------------------

  lemma LookKeeps(s: State, h: nat, found: bool)
    requires Inv(s) && h in s.handles
    ensures Inv(Refreshed(s, h, found))
  {
    hide Inv;
    if Counted(s.handles[h]) { RefreshExactly(s, h, found); }
  }

  lemma StepKeeps(s: State, a: Action)
    requires Inv(s)
    ensures Inv(Step(s, a))
  {
    hide Inv, Opened, Shared, Closed, Unlinked, Renamed, Written, Truncated, Refreshed;
    match a
    case Create(name, ino) => if name !in s.names && ino !in s.files { CreateKeeps(s, name, ino); }
    case Open(h, name) => OpenKeeps(s, h, name);
    case OpenView(h, ino, size, xid) =>
      if h !in s.handles && xid != 0 { UncountedKeeps(s, h, Handle(ino, size, s.gen, xid)); }
    case Share(h, copy) => ShareKeeps(s, h, copy);
    case Close(h, reaped) => CloseKeeps(s, h, reaped);
    case Unlink(name, done) => UnlinkKeeps(s, name, done);
    case Rename(from, to, done, reaped) => RenameKeeps(s, from, to, done, reaped);
    case Look(h, found) => if h in s.handles { LookKeeps(s, h, found); }
    case PWrite(_, _, _, _, _, _, _) => WriteKeeps(s, a);
    case Truncate(h, size, found, done) => TruncateKeeps(s, h, size, found, done);
  }

  lemma InitHolds(s: State)
    requires Init(s)
    ensures Inv(s)
  {
    hide Named, OneNameEach, RowFrom;
    forall ino
      ensures Refs(s.rows, ino) == 0 == |Holders(s.handles, ino)|
    {
      NoRow(s.rows, ino);
      assert Holders(s.handles, ino) == {};
    }
  }

  lemma {:induction false} RunKeeps(s: State, acts: seq<Action>)
    requires Inv(s)
    ensures Inv(Run(s, acts))
    decreases |acts|
  {
    hide Inv, Step;
    if acts != [] {
      StepKeeps(s, acts[0]);
      RunKeeps(Step(s, acts[0]), acts[1..]);
    }
  }

  // ---- the promises: lifetimes -------------------------------------------------------

  /** Files live exactly as long as they are named or held: one row a file, its count
      the counted handles; a held file is there, and marked nameless just when its name
      is gone; and a file with neither is one the volume would not let go. */
  lemma FilesOutliveTheirNames(s: State, acts: seq<Action>, ino: nat)
    requires Init(s)
    ensures var u := Run(s, acts);
            && OneRowEach(u.rows) && Refs(u.rows, ino) == |Holders(u.handles, ino)|
            && (Holders(u.handles, ino) != {} ==> ino in u.files && (IsNameless(u.rows, ino) <==> !Named(u.names, ino)))
            && (Named(u.names, ino) ==> ino in u.files)
            && (ino in u.files ==> Named(u.names, ino) || Holders(u.handles, ino) != {} || ino in u.stuck)
  {
    hide Refs, IsNameless, OneRowEach, Named, OneNameEach, Holders;
    InitHolds(s);
    RunKeeps(s, acts);
    assert Refs(Run(s, acts).rows, ino) == |Holders(Run(s, acts).handles, ino)|;
  }

  /** A close takes the file exactly when it was the last hold on a file without a name
      and the volume's reap went through; the handle is gone either way. */
  lemma LastCloseReaps(s: State, h: nat, reaped: bool)
    requires Inv(s) && h in s.handles && Counted(s.handles[h])
    ensures var u := Step(s, Close(h, reaped));
            var ino := s.handles[h].ino;
            && u.handles == s.handles - {h} && u.names == s.names
            && (ino !in u.files <==> reaped && Holders(s.handles, ino) == {h} && !Named(s.names, ino))
            && forall x :: x != ino ==> (x in u.files <==> x in s.files)
  {
    hide IsNameless, OneRowEach, Named, OneNameEach, Release, Refs;
    var ino := s.handles[h].ino;
    HandleHolds(s, h);
    assert h in Holders(s.handles, ino);
    OnlyHolder(Holders(s.handles, ino), h);
    assert Refs(s.rows, ino) == |Holders(s.handles, ino)|;
  }

  lemma OnlyHolder(hs: set<nat>, h: nat)
    requires h in hs
    ensures |hs| == 1 <==> hs == {h}
  {
    assert |hs - {h}| == |hs| - 1;
    if |hs| == 1 { assert hs - {h} == {}; }
  }

  /** An unlink takes the name, and the file exactly when nothing holds it. */
  lemma UnlinkExactly(s: State, name: string)
    requires Inv(s) && name in s.names
    ensures var u := Step(s, Unlink(name, true));
            var ino := s.names[name];
            && u.names == s.names - {name} && u.handles == s.handles
            && (ino in u.files <==> Holders(s.handles, ino) != {})
            && (ino in u.files ==> u.files[ino].data == s.files[ino].data)
            && forall x :: x != ino ==> (x in u.files <==> x in s.files)
  {
    hide IsNameless, OneRowEach, Named, OneNameEach, Mark, Refs, Holders;
    NamedBy(s.names, name);
    assert Refs(s.rows, s.names[name]) == |Holders(s.handles, s.names[name])|;
  }

  /** A rename leaves the names as they were but for `from`, which is gone, and `to`, which
      is the source's file's.  Every file stays as it was but the one that had `to`: it
      keeps its bytes and stays exactly when something holds it or the reap fails.  To the
      same name, nothing changes; nor does a rename the volume refuses. */
  lemma RenameExactly(s: State, from: string, to: string, done: bool, reaped: bool)
    requires Inv(s) && from in s.names
    ensures var u := Step(s, Rename(from, to, done, reaped));
            && u.handles == s.handles
            && (!done || from == to ==> u.names == s.names && u.files == s.files)
            && (done && from != to ==>
                  && u.names.Keys == s.names.Keys - {from} + {to}
                  && (forall n :: n in u.names ==> u.names[n] == if n == to then s.names[from] else s.names[n])
                  && (to !in s.names ==> u.files == s.files)
                  && (to in s.names ==>
                        var victim := s.names[to];
                        && victim in s.files && victim != s.names[from]
                        && (forall x :: x != victim ==> (x in u.files <==> x in s.files) && (x in s.files ==> u.files[x] == s.files[x]))
                        && (victim in u.files <==> Holders(s.handles, victim) != {} || !reaped)
                        && (victim in u.files ==> u.files[victim].data == s.files[victim].data)))
  {
    hide IsNameless, OneRowEach, Mark, Refs, Holders, Named;
    NamedBy(s.names, from);
    if to in s.names && from != to {
      NamedBy(s.names, to);
      SameNameSameFile(s.names, from, to);
      assert Refs(s.rows, s.names[to]) == |Holders(s.handles, s.names[to])|;
    }
  }

  /** A create makes an empty file under a new name and changes nothing else. */
  lemma CreateExactly(s: State, name: string, ino: nat)
    requires name !in s.names && ino !in s.files
    ensures var u := Step(s, Create(name, ino));
            && u.names == s.names[name := ino] && u.handles == s.handles
            && ino in u.files && u.files[ino].data == [] && u.files == s.files[ino := u.files[ino]]
  {
  }

  /** An open gives a handle exactly when the name is there and the file is held already or
      a row of the table is free; it is a handle on that file, of its length, and of the
      volume's generation. */
  lemma OpenExactly(s: State, h: nat, name: string)
    requires Inv(s) && h !in s.handles
    ensures var u := Step(s, Open(h, name));
            && u.names == s.names && u.files == s.files && u.gen == s.gen
            && (h in u.handles <==>
                  name in s.names
                  && (Holders(s.handles, s.names[name]) != {} || exists i :: 0 <= i < |s.rows| && s.rows[i].refs == 0))
            && (h in u.handles ==>
                  && name in s.names && s.names[name] in s.files
                  && u.handles == s.handles[h := Handle(s.names[name], |s.files[s.names[name]].data|, s.gen, 0)])
            && (h !in u.handles ==> u == s)
  {
    hide IsNameless, OneRowEach, Refs, Holders, Named, Hold;
    if name in s.names {
      NamedBy(s.names, name);
      HoldMeaning(s.rows, s.names[name]);
      assert Refs(s.rows, s.names[name]) == |Holders(s.handles, s.names[name])|;
    }
  }

  /** fs_hold and a copy: another handle like the first, always, since the file is held; and
      a checkpoint's handle is opened and copied without a count. */
  lemma ShareExactly(s: State, h: nat, copy: nat, ino: nat, size: nat, xid: nat)
    requires Inv(s) && copy !in s.handles
    ensures h in s.handles ==>
              var u := Step(s, Share(h, copy));
              && u.handles == s.handles[copy := s.handles[h]] && u.names == s.names && u.files == s.files
              && (!Counted(s.handles[h]) ==> u.rows == s.rows)
    ensures xid != 0 ==>
              Step(s, OpenView(copy, ino, size, xid)) == s.(handles := s.handles[copy := Handle(ino, size, s.gen, xid)])
  {
    hide IsNameless, OneRowEach, Refs, Holders, Named, Hold;
    if h in s.handles && Counted(s.handles[h]) {
      HandleHolds(s, h);
      HoldMeaning(s.rows, s.handles[h].ino);
    }
  }

  // ---- the promises: bytes -----------------------------------------------------------

  /** The action changes `ino`'s bytes, if it does anything. */
  predicate Touches(s: State, a: Action, ino: nat) {
    && (a.PWrite? || a.Truncate?)
    && a.h in s.handles && Counted(s.handles[a.h]) && s.handles[a.h].ino == ino
  }

  lemma OtherBytes(s: State, a: Action, ino: nat)
    requires ino in s.files && ino in Step(s, a).files && !Touches(s, a, ino)
    ensures Step(s, a).files[ino].data == s.files[ino].data
  {
    hide Written, Truncated, Refreshed, Closed, Unlinked, Renamed, Opened, Shared;
    match a
    case Open(h, name) => assert Opened(s, h, name).files == s.files by { HoldingFiles(s, h, name, 0); }
    case Share(h, copy) => assert Shared(s, h, copy).files == s.files by { HoldingFiles(s, h, "", copy); }
    case Close(h, reaped) => ClosedBytes(s, h, reaped, ino);
    case Unlink(name, done) => UnlinkedBytes(s, name, done, ino);
    case Rename(from, to, done, reaped) => RenamedBytes(s, from, to, done, reaped, ino);
    case Look(h, found) => if h in s.handles { RefreshedFrame(s, h, found); }
    case PWrite(_, _, _, _, _, _, _) => WrittenFrame(s, a);
    case Truncate(h, size, found, done) => TruncatedFrame(s, h, size, found, done);
    case _ =>
  }

  lemma HoldingFiles(s: State, h: nat, name: string, copy: nat)
    ensures Opened(s, h, name).files == s.files && Shared(s, h, copy).files == s.files
  {
    hide Hold;
  }

  lemma ClosedBytes(s: State, h: nat, reaped: bool, ino: nat)
    requires ino in s.files
    ensures ino in Closed(s, h, reaped).files ==> Closed(s, h, reaped).files[ino].data == s.files[ino].data
  {
    hide Release, Refs, IsNameless;
  }

  lemma UnlinkedBytes(s: State, name: string, done: bool, ino: nat)
    requires ino in s.files
    ensures ino in Unlinked(s, name, done).files ==> Unlinked(s, name, done).files[ino].data == s.files[ino].data
  {
    hide Mark, Refs;
  }

  lemma RenamedBytes(s: State, from: string, to: string, done: bool, reaped: bool, ino: nat)
    requires ino in s.files
    ensures var u := Renamed(s, from, to, done, reaped); ino in u.files ==> u.files[ino].data == s.files[ino].data
  {
    hide Mark, Refs;
  }

  /** A handle nobody closes stays, on the same file. */
  lemma OpenStays(s: State, a: Action, h: nat)
    requires h in s.handles && !(a.Close? && a.h == h)
    ensures h in Step(s, a).handles
    ensures Step(s, a).handles[h].ino == s.handles[h].ino && Step(s, a).handles[h].xid == s.handles[h].xid
  {
    hide Hold, Release, Mark, Refs, IsNameless, Written, Truncated, Refreshed;
    match a
    case Look(k, found) => if k in s.handles { RefreshedFrame(s, k, found); }
    case PWrite(_, _, _, _, _, _, _) => WrittenFrame(s, a);
    case Truncate(k, size, found, done) => TruncatedFrame(s, k, size, found, done);
    case _ =>
  }

  /** Only the handle's own file may change its bytes, and no handle its file. */
  ghost predicate Frame(s: State, u: State, h: nat) {
    && u.handles.Keys == s.handles.Keys && u.files.Keys == s.files.Keys
    && (forall k :: k in s.handles ==> u.handles[k].ino == s.handles[k].ino && u.handles[k].xid == s.handles[k].xid)
    && (forall x :: x in s.files && !(h in s.handles && Counted(s.handles[h]) && s.handles[h].ino == x) ==>
          u.files[x] == s.files[x])
  }

  lemma RefreshedFrame(s: State, h: nat, found: bool)
    requires h in s.handles
    ensures Frame(s, Refreshed(s, h, found), h) && Refreshed(s, h, found).files == s.files
  {
  }

  lemma WrittenFrame(s: State, a: Action)
    requires a.PWrite?
    ensures Frame(s, Written(s, a), a.h)
  {
    hide Laid, Resized, Refreshed;
    if a.h in s.handles { RefreshedFrame(s, a.h, a.found); }
  }

  lemma TruncatedFrame(s: State, h: nat, size: nat, found: bool, done: bool)
    ensures Frame(s, Truncated(s, h, size, found, done), h)
  {
    hide Resized, Refreshed;
    if h in s.handles { RefreshedFrame(s, h, found); }
  }

  /** Nothing in the run closes `h` or writes to `ino`. */
  predicate LeftAlone(s: State, acts: seq<Action>, h: nat, ino: nat)
    decreases |acts|
  {
    acts == [] ||
    (!(acts[0].Close? && acts[0].h == h) && !Touches(s, acts[0], ino) && LeftAlone(Step(s, acts[0]), acts[1..], h, ino))
  }

  /** While a handle is open its file is there with its bytes, whatever is unlinked,
      renamed over, closed or created meanwhile. */
  lemma {:induction false} HeldBytesStay(s: State, acts: seq<Action>, h: nat)
    requires Inv(s) && h in s.handles && Counted(s.handles[h])
    requires LeftAlone(s, acts, h, s.handles[h].ino)
    ensures var u := Run(s, acts);
            var ino := s.handles[h].ino;
            && ino in s.files && ino in u.files && u.files[ino].data == s.files[ino].data
            && h in u.handles && u.handles[h].ino == ino
    decreases |acts|
  {
    hide Inv, Step, Touches;
    InvParts(s);
    HandleHolds(s, h);
    if acts != [] {
      var u := Step(s, acts[0]);
      OpenStays(s, acts[0], h);
      StepKeeps(s, acts[0]);
      InvParts(u);
      HandleHolds(u, h);
      OtherBytes(s, acts[0], s.handles[h].ino);
      HeldBytesStay(u, acts[1..], h);
    }
  }

  lemma InvParts(s: State)
    requires Inv(s)
    ensures Counts(s) && Lifetimes(s)
  {
  }

  // ---- the generation -------------------------------------------------------------------

  /** `h` is up to date and nobody else's handle was touched. */
  predicate OnlyCurrent(s: State, u: State, h: nat) {
    && h in s.handles && h in u.handles && u.handles[h].gen == u.gen
    && u.handles.Keys == s.handles.Keys
    && forall k :: k in s.handles && k != h ==> u.handles[k] == s.handles[k]
  }

  /** Every change of a name or of a file moves the generation on, so that other handles
      look again; a name operation that is carried out moves it by one, and what is done
      through a handle leaves that handle up to date and the others as they were. */
  lemma ChangesMoveTheGeneration(s: State, a: Action)
    ensures var u := Step(s, a);
            && s.gen <= u.gen
            && (u.names != s.names || u.files != s.files ==> s.gen < u.gen)
            && (a.Create? && a.name !in s.names && a.ino !in s.files ==> u.gen == s.gen + 1)
            && (a.Unlink? && a.done && a.name in s.names && s.names[a.name] in s.files ==> u.gen == s.gen + 1)
            && (a.Rename? && a.done && a.from in s.names ==> u.gen == s.gen + 1)
            && (a.Open? || a.OpenView? || a.Share? || a.Look? ==> u.gen == s.gen)
            && ((a.PWrite? || a.Truncate?) && s.gen < u.gen ==> OnlyCurrent(s, u, a.h))
  {
    hide OnlyCurrent, Refs, IsNameless, Hold, Release, Mark, Laid, Resized;
    match a
    case Look(h, found) => if h in s.handles { RefreshedFrame(s, h, found); }
    case PWrite(_, _, _, _, _, _, _) => WriteMoves(s, a);
    case Truncate(h, size, found, done) => TruncateMoves(s, h, size, found, done);
    case _ =>
  }

  lemma PutMoves(s: State, r: State, h: nat, data: seq<bv8>, size: nat, bumps: nat, missed: bool)
    requires h in s.handles && h in r.handles && r.handles[h].ino in r.files
    requires r.gen == s.gen && r.handles.Keys == s.handles.Keys
    requires forall k :: k in s.handles && k != h ==> r.handles[k] == s.handles[k]
    ensures var u := Put(r, h, data, size, bumps, missed);
            OnlyCurrent(s, u, h) && u.gen == s.gen + bumps && u.names == r.names
  {
  }

  lemma RefreshMoves(s: State, h: nat, found: bool)
    requires h in s.handles
    ensures var r := Refreshed(s, h, found);
            && r.gen == s.gen && r.names == s.names && r.files == s.files && r.handles.Keys == s.handles.Keys
            && h in r.handles && r.handles[h].ino == s.handles[h].ino
            && forall k :: k in s.handles && k != h ==> r.handles[k] == s.handles[k]
  {
  }

  lemma WriteMoves(s: State, a: Action)
    requires a.PWrite?
    ensures var u := Written(s, a);
            && s.gen <= u.gen
            && (u.names != s.names || u.files != s.files ==> s.gen < u.gen)
            && (s.gen < u.gen ==> OnlyCurrent(s, u, a.h))
  {
    hide OnlyCurrent, Laid, Resized, Refreshed, Put;
    if a.h in s.handles && Counted(s.handles[a.h]) && s.handles[a.h].ino in s.files {
      RefreshMoves(s, a.h, a.found);
      var r := Refreshed(s, a.h, a.found);
      var was := r.files[s.handles[a.h].ino].data;
      var size := r.handles[a.h].size;
      var off := Offset(a.at, size);
      var end := off + |a.buf|;
      var grows := end > size;
      var room := if grows && end > |was| then Resized(was, end) else was;
      PutMoves(s, r, a.h, Laid(room, off, if a.put then a.buf else a.junk), if grows then end else size,
               if grows && a.put then 2 else 1, NoteOf(r, a.h).missed && !(grows && end >= |was|));
    }
  }

  lemma TruncateMoves(s: State, h: nat, size: nat, found: bool, done: bool)
    ensures var u := Truncated(s, h, size, found, done);
            && s.gen <= u.gen
            && (u.names != s.names || u.files != s.files ==> s.gen < u.gen)
            && (s.gen < u.gen ==> OnlyCurrent(s, u, h))
  {
    hide OnlyCurrent, Resized, Refreshed, Put;
    if h in s.handles && Counted(s.handles[h]) && s.handles[h].ino in s.files {
      RefreshMoves(s, h, found);
      var r := Refreshed(s, h, found);
      var was := r.files[s.handles[h].ino].data;
      var known := r.handles[h].size;
      var stands := if size > known then |was| >= size else |was| <= size;
      PutMoves(s, r, h, if stands then was else Resized(was, size), size, 1,
               NoteOf(r, h).missed && stands && |was| != size);
    }
  }

  // ---- the promises: lengths ---------------------------------------------------------

  /** Over whole runs, lookups failing where they may: a handle of the volume's generation
      carries the wrong length exactly when its last refresh failed after the length had
      moved from the one it knew. */
  lemma WrongLengthsExactly(s: State, acts: seq<Action>, h: nat)
    requires Init(s)
    ensures var u := Run(s, acts);
            h in u.handles && Counted(u.handles[h]) && u.handles[h].gen == u.gen ==>
              && u.handles[h].ino in u.files && h in u.notes
              && (u.handles[h].size != |u.files[u.handles[h].ino].data| <==> u.notes[h].missed)
  {
    InitHolds(s);
    RunKeeps(s, acts);
    var u := Run(s, acts);
    if h in u.handles && Counted(u.handles[h]) { HandleHolds(u, h); }
  }

  /** Every lookup of the run goes through. */
  predicate AllFound(acts: seq<Action>) {
    forall a :: a in acts ==> (a.Look? || a.PWrite? || a.Truncate? ==> a.found)
  }

  predicate NoneMissed(s: State) {
    forall h :: h in s.notes ==> !s.notes[h].missed
  }

  lemma FoundStep(s: State, a: Action)
    requires NoneMissed(s) && (a.Look? || a.PWrite? || a.Truncate? ==> a.found)
    ensures NoneMissed(Step(s, a))
  {
    hide Laid, Resized, Hold, Release, Mark, Refs, IsNameless;
  }

  lemma {:induction false} FoundRun(s: State, acts: seq<Action>)
    requires NoneMissed(s) && AllFound(acts)
    ensures NoneMissed(Run(s, acts))
    decreases |acts|
  {
    hide Step;
    if acts != [] {
      assert acts[0] in acts;
      FoundStep(s, acts[0]);
      FoundRun(Step(s, acts[0]), acts[1..]);
    }
  }

  /** While lookups go through, every handle of the volume's generation is right. */
  lemma CachedLengthsAreTrue(s: State, acts: seq<Action>, h: nat)
    requires Init(s) && AllFound(acts)
    ensures var u := Run(s, acts);
            h in u.handles && Counted(u.handles[h]) && u.handles[h].gen == u.gen ==>
              u.handles[h].ino in u.files && u.handles[h].size == |u.files[u.handles[h].ino].data|
  {
    hide Run;
    WrongLengthsExactly(s, acts, h);
    FoundRun(s, acts);
  }

  // ---- the promises: writes ----------------------------------------------------------

  /** The length an operation through `h` goes by. */
  function Believed(s: State, h: nat, found: bool): nat
    requires h in s.handles
  {
    Refreshed(s, h, found).handles[h].size
  }

  /** A write that the volume does lands as it says, in the file as it is now: the bytes
      asked for, the old ones around them, zeros in a gap.  It fails to exactly when it
      runs past the file's end but not past the length the handle goes by, and then what
      lies past the end is lost. */
  lemma WriteLandsExactly(s: State, a: Action)
    requires Inv(s) && a.PWrite? && a.put && a.grown && a.h in s.handles && Counted(s.handles[a.h])
    ensures var ino := s.handles[a.h].ino;
            && ino in s.files && ino in Step(s, a).files
            && var was := s.files[ino].data;
               var now := Step(s, a).files[ino].data;
               var size := Believed(s, a.h, a.found);
               var off := Offset(a.at, size);
               && (size == |was| <==> !Misses(s, a.h, a.found))
               && (now == Overlay(was, off, a.buf) <==> !(|was| < off + |a.buf| <= size))
               && (|was| < off + |a.buf| <= size ==> now == Overlay(was, off, a.buf)[..|was|])
  {
    hide Inv, Overlay, Misses, Refreshed, Laid, Resized;
    InvParts(s);
    HandleHolds(s, a.h);
    RefreshExactly(s, a.h, a.found);
    var was := s.files[s.handles[a.h].ino].data;
    var size := Believed(s, a.h, a.found);
    LaidIsOverlay(was, Offset(a.at, size), a.buf, size);
  }

  /** Growing by the length the handle goes by, then putting, is the overlay but for what
      falls past the end of a file taken to be longer. */
  lemma LaidIsOverlay(was: seq<bv8>, off: nat, buf: seq<bv8>, size: nat)
    ensures var end := off + |buf|;
            var room := if end > size && end > |was| then Resized(was, end) else was;
            && (Laid(room, off, buf) == Overlay(was, off, buf) <==> !(|was| < end <= size))
            && (|was| < end <= size ==> Laid(room, off, buf) == Overlay(was, off, buf)[..|was|])
  {
    hide Overlay;
    var end := off + |buf|;
    var room := if end > size && end > |was| then Resized(was, end) else was;
    if |was| < end <= size {
      assert Laid(was, off, buf) == Overlay(was, off, buf)[..|was|];
    } else {
      assert Laid(room, off, buf) == Overlay(was, off, buf);
    }
  }

  /** A write the volume does not do: one that could not grow changes no byte; one whose put
      fails changes none but those it would have written, and lengthens the file at most
      to where it would have ended. */
  lemma FailedWriteKeeps(s: State, a: Action, i: nat)
    requires Inv(s) && a.PWrite? && !(a.put && a.grown) && a.h in s.handles && Counted(s.handles[a.h])
    ensures var ino := s.handles[a.h].ino;
            && ino in s.files && ino in Step(s, a).files
            && var was := s.files[ino].data;
               var now := Step(s, a).files[ino].data;
               var size := Believed(s, a.h, a.found);
               var off := Offset(a.at, size);
               && (off + |a.buf| > size && !a.grown ==> now == was)
               && (off + |a.buf| <= size && !a.put ==> now == was)
               && |was| <= |now| && (|now| > |was| ==> |now| == off + |a.buf|)
               && (!a.put && i < |was| && !(off <= i < off + |a.buf|) ==> now[i] == was[i])
  {
    hide Inv, Overlay, Misses, Refreshed;
    InvParts(s);
    HandleHolds(s, a.h);
    RefreshExactly(s, a.h, a.found);
  }

  /** A truncation the volume does leaves the file at the length asked for, old bytes kept
      and new ones zero, exactly when the file is on the side of that length the handle
      takes it to be on; else the file stays as it is.  A failed one changes no byte. */
  lemma TruncateLandsExactly(s: State, h: nat, size: nat, found: bool, done: bool)
    requires Inv(s) && h in s.handles && Counted(s.handles[h])
    ensures var ino := s.handles[h].ino;
            && ino in s.files && ino in Step(s, Truncate(h, size, found, done)).files
            && var was := s.files[ino].data;
               var now := Step(s, Truncate(h, size, found, done)).files[ino].data;
               var known := Believed(s, h, found);
               && (known == |was| <==> !Misses(s, h, found))
               && (!done ==> now == was)
               && (done ==> (now == Resized(was, size)
                             <==> if size == known then |was| == size
                                  else if size > known then |was| <= size else |was| >= size))
               && (now == Resized(was, size) || now == was)
  {
    hide Inv, Misses, Refreshed;
    InvParts(s);
    HandleHolds(s, h);
    RefreshExactly(s, h, found);
    var was := s.files[s.handles[h].ino].data;
    assert Resized(was, |was|) == was;
  }

  // ---- the promises: appends ---------------------------------------------------------

  predicate IsAppend(s: State, a: Action, ino: nat) {
    Touches(s, a, ino) && a.PWrite? && a.at.Append? && a.put
  }

  /** What one action appends: nothing if the file could not grow. */
  function Added(s: State, a: Action, ino: nat): seq<bv8> {
    if IsAppend(s, a, ino) && a.grown then a.buf else []
  }

  /** The chunks a run appends, in the order the lock was taken. */
  function Chunks(s: State, acts: seq<Action>, ino: nat): seq<bv8>
    decreases |acts|
  {
    if acts == [] then [] else Added(s, acts[0], ino) + Chunks(Step(s, acts[0]), acts[1..], ino)
  }

  /** `ino` stays, and whatever touches it is an append that goes by the right length. */
  predicate OnlyAppends(s: State, acts: seq<Action>, ino: nat)
    decreases |acts|
  {
    && ino in s.files
    && (acts == [] ||
        ((Touches(s, acts[0], ino) ==> IsAppend(s, acts[0], ino) && !Misses(s, acts[0].h, acts[0].found))
         && OnlyAppends(Step(s, acts[0]), acts[1..], ino)))
  }

  lemma OverlayAtEnd(data: seq<bv8>, buf: seq<bv8>)
    ensures Overlay(data, |data|, buf) == data + buf
  {
  }

  lemma OverlayElsewhere(data: seq<bv8>, off: nat, buf: seq<bv8>)
    requires off != |data| && buf != []
    ensures Overlay(data, off, buf) != data + buf
  {
    hide Overlay;
    assert |Overlay(data, off, buf)| != |data + buf|;
  }

  /** An append lands at the file's end exactly when its handle goes by the right length:
      after a lookup that failed on a moved length it lands on other bytes, or leaves a
      gap. */
  lemma AppendExactly(s: State, a: Action, ino: nat)
    requires Inv(s) && ino in s.files && IsAppend(s, a, ino)
    ensures ino in Step(s, a).files
    ensures Step(s, a).files[ino].data == s.files[ino].data + Added(s, a, ino)
            <==> !Misses(s, a.h, a.found) || Added(s, a, ino) == []
  {
    hide Inv, Overlay, Misses, Refreshed;
    var data := s.files[ino].data;
    RefreshExactly(s, a.h, a.found);
    if a.grown && a.buf != [] {
      WriteLandsExactly(s, a);
      OverlayAtEnd(data, a.buf);
      var size := Believed(s, a.h, a.found);
      if size != |data| { OverlayElsewhere(data, size, a.buf); }
    } else {
      assert Laid(data, Believed(s, a.h, a.found), []) == data;
    }
  }

  /** Any interleaving of such appends through any handles, with anything else that leaves
      the file alone between them, leaves the file as it was followed by the chunks in
      lock order. */
  lemma {:induction false} AppendsConcatenate(s: State, acts: seq<Action>, ino: nat)
    requires Inv(s) && OnlyAppends(s, acts, ino)
    ensures ino in Run(s, acts).files
    ensures Run(s, acts).files[ino].data == s.files[ino].data + Chunks(s, acts, ino)
    decreases |acts|
  {
    hide Inv, Step, Touches, IsAppend, Added, Misses;
    if acts != [] {
      var u := Step(s, acts[0]);
      StepKeeps(s, acts[0]);
      if Touches(s, acts[0], ino) {
        AppendExactly(s, acts[0], ino);
      } else {
        OtherBytes(s, acts[0], ino);
        NothingAdded(s, acts[0], ino);
      }
      AppendsConcatenate(u, acts[1..], ino);
      assert s.files[ino].data + (Added(s, acts[0], ino) + Chunks(u, acts[1..], ino))
          == s.files[ino].data + Added(s, acts[0], ino) + Chunks(u, acts[1..], ino);
    }
  }

  lemma NothingAdded(s: State, a: Action, ino: nat)
    requires !Touches(s, a, ino)
    ensures Added(s, a, ino) == []
  {
  }

  // ---- an append over another's bytes ---------------------------------------------------

  /** Two handles, 1 and 2, just opened on file 1, which is empty. */
  ghost predicate BothOpen(t: State) {
    && 1 in t.files && t.files[1].data == []
    && (forall h :: h == 1 || h == 2 ==>
          h in t.handles && t.handles[h] == Handle(1, 0, t.gen, 0) && NoteOf(t, h) == Note(0, false))
  }

  const SETUP: seq<Action> := [Create("a", 1), Open(1, "a"), Open(2, "a")]

  const APPENDS: seq<Action> := [PWrite(1, Append, [7], true, true, true, []), PWrite(2, Append, [9], false, true, true, [])]

  lemma OpenedTwice(s: State)
    requires Init(s) && s.files == map[] && s.names == map[]
    ensures BothOpen(Run(s, SETUP)) && Inv(Run(s, SETUP))
  {
    InitHolds(s);
    RunKeeps(s, SETUP);
    var s1 := Step(s, SETUP[0]);
    var s2 := Step(s1, SETUP[1]);
    var s3 := Step(s2, SETUP[2]);
    assert FreeFrom(s1.rows, 0) == 0;
    NoRow(s1.rows, 1);
    assert s2.rows[0] == Row(1, 1, false);
    assert RowOf(s2.rows, 1) == 0;
    assert BothOpen(s3);
    assert Run(s, SETUP) == s3 by { ThreeSteps(s, SETUP); }
  }

  lemma ThreeSteps(s: State, acts: seq<Action>)
    requires |acts| == 3
    ensures Run(s, acts) == Step(Step(Step(s, acts[0]), acts[1]), acts[2])
  {
    hide Step;
    var s1 := Step(s, acts[0]);
    assert Run(s, acts) == Run(s1, acts[1..]);
    TwoSteps(s1, acts[1..]);
  }

  lemma TwoSteps(s: State, acts: seq<Action>)
    requires |acts| == 2
    ensures Run(s, acts) == Step(Step(s, acts[0]), acts[1])
  {
    hide Step;
    var s1 := Step(s, acts[0]);
    assert Run(s, acts) == Run(s1, acts[1..]);
    assert acts[1..] == [acts[1]] && [acts[1]][1..] == [];
    assert Run(s1, [acts[1]]) == Run(Step(s1, acts[1]), []);
  }

  lemma FirstAppend(t: State)
    requires BothOpen(t)
    ensures var u := Step(t, APPENDS[0]);
            && 1 in u.files && u.files[1].data == [7] && u.gen == t.gen + 2
            && 2 in u.handles && u.handles[2] == Handle(1, 0, t.gen, 0) && NoteOf(u, 2) == Note(0, false)
  {
    assert Laid(Resized([], 1), 0, [7]) == [7];
  }

  lemma SecondAppend(t: State, gen: nat)
    requires 1 in t.files && t.files[1].data == [7] && t.gen == gen + 2
    requires 2 in t.handles && t.handles[2] == Handle(1, 0, gen, 0) && NoteOf(t, 2) == Note(0, false)
    ensures 1 in Step(t, APPENDS[1]).files && Step(t, APPENDS[1]).files[1].data == [9]
  {
    assert Laid([7], 0, [9]) == [9];
  }

  /** An append through each, the second after a lookup that fails: the file ends as the
      second chunk alone. */
  lemma SecondOverFirst(t: State)
    requires BothOpen(t)
    ensures var u := Run(t, APPENDS);
            1 in u.files && u.files[1].data == [9] && Chunks(t, APPENDS, 1) == [7, 9]
  {
    hide Step, Run;
    FirstAppend(t);
    var t1 := Step(t, APPENDS[0]);
    SecondAppend(t1, t.gen);
    TwoSteps(t, APPENDS);
    var second := [APPENDS[1]];
    assert APPENDS[1..] == second && second[1..] == [];
    assert Chunks(t1, second, 1) == [9] + Chunks(Step(t1, second[0]), [], 1);
    assert Chunks(t, APPENDS, 1) == [7] + Chunks(t1, second, 1);
  }

  /** On an empty volume the run that loses an append. */
  lemma LostAppend(s: State)
    requires Init(s) && s.files == map[] && s.names == map[]
    ensures var t := Run(s, SETUP);
            var u := Run(t, APPENDS);
            && Inv(t) && t.files[1].data == [] && Chunks(t, APPENDS, 1) == [7, 9]
            && 1 in u.files && u.files[1].data == [9]
  {
    hide Run, Inv;
    OpenedTwice(s);
    SecondOverFirst(Run(s, SETUP));
  }
}
