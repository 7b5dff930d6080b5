/** The per-session state files on the remote host: names that cannot collide,
    and any number of serve processes that save, fail and crash at any step
    while others read. A file is an inode behind a name, so that a rename
    leaves an earlier reader on the file it opened. */
module StateFiles {
  import opened Prelude
  import opened Reports
  import opened Utf8
  import opened SessionName

  // -- file names -------------------------------------------------------------

  function Decimal(n: nat): (r: string)
    ensures |r| > 0 && forall c | c in r :: '0' <= c <= '9'
  {
    var digit := ('0' as int + n % 10) as char;
    if n < 10 then [digit] else Decimal(n / 10) + [digit]
  }

  function StateName(session: string): string {
    session + ".state"
  }

  function TmpName(session: string, pid: nat): string {
    "." + session + "." + Decimal(pid) + ".tmp"
  }

  lemma {:induction false} DecimalInjective(a: nat, b: nat)
    requires Decimal(a) == Decimal(b)
    ensures a == b
    decreases a
  {
    var x, y := Decimal(a), Decimal(b);
    assert x[|x| - 1] as int - '0' as int == a % 10;
    assert y[|y| - 1] as int - '0' as int == b % 10;
    if a >= 10 && b >= 10 {
      assert x[..|x| - 1] == Decimal(a / 10) && y[..|y| - 1] == Decimal(b / 10);
      DecimalInjective(a / 10, b / 10);
    }
  }

  lemma DotAt(all: string, a: string, x: string)
    requires all == a + "." + x && '.' !in x
    ensures |all| == |a| + 1 + |x| && all[|a|] == '.' && forall k | |a| < k < |all| :: all[k] != '.'
    ensures all[..|a|] == a && all[|a| + 1..] == x
  {
    forall k | |a| < k < |all| ensures all[k] != '.' {
      assert all[k] == x[k - |a| - 1];
    }
  }

  /** A part without dots behind the last dot can be read off. */
  lemma LastDot(a: string, x: string, b: string, y: string)
    requires a + "." + x == b + "." + y && '.' !in x && '.' !in y
    ensures a == b && x == y
  {
    DotAt(a + "." + x, a, x);
    DotAt(a + "." + x, b, y);
  }

  lemma TmpNamesDistinct(s: string, p: nat, t: string, q: nat)
    requires TmpName(s, p) == TmpName(t, q)
    ensures s == t && p == q
  {
    var x, y := s + "." + Decimal(p), t + "." + Decimal(q);
    assert TmpName(s, p) == "." + x + ".tmp" && TmpName(t, q) == "." + y + ".tmp";
    assert ("." + x + ".tmp")[1..|x| + 1] == x && ("." + y + ".tmp")[1..|y| + 1] == y;
    LastDot(s, Decimal(p), t, Decimal(q));
    DecimalInjective(p, q);
  }

  /** No state file is a temp file, no two sessions share a state file, no two
      saves of distinct processes share a temp file; all sit directly in the
      directory. */
  lemma NamesNeverCollide(s: string, p: nat, t: string, q: nat)
    requires Session(s) && Session(t)
    ensures StateName(s) != TmpName(t, q)
    ensures StateName(s) == StateName(t) ==> s == t
    ensures TmpName(s, p) == TmpName(t, q) ==> s == t && p == q
    ensures '/' !in StateName(s) && '/' !in TmpName(s, p)
  {
    ParseExactly(s);
    var a, b := StateName(s), TmpName(t, q);
    assert a[|a| - 1] == 'e' && b[|b| - 1] == 'p';
    assert a[..|s|] == s && StateName(t)[..|t|] == t;
    if TmpName(s, p) == TmpName(t, q) {
      TmpNamesDistinct(s, p, t, q);
    }
  }

  // -- the saves --------------------------------------------------------------

  /** One serve process inside save_state. */
  datatype Save = Save(session: string, pid: nat, dump: Bytes, inode: Option<nat>, written: nat, failed: bool)
  {
    function Tmp(): string { TmpName(session, pid) }

    function Target(): string { StateName(session) }

    /** The temp file is open and no step has failed. */
    predicate Writing() { inode.Some? && !failed }
  }

  datatype Saved = Saved(session: string, dump: Bytes)

  /** The directory, the contents of every inode ever made in it, the saves
      under way by task, and the renames done so far. */
  datatype World = World(names: map<string, nat>, data: seq<Bytes>, live: map<nat, Save>, log: seq<Saved>)

  const EMPTY := World(map[], [], map[], [])

  datatype Event =
    | Begin(task: nat, session: string, pid: nat, dump: Bytes)
    | Open(task: nat)
    | Write(task: nat, count: nat)
    | Rename(task: nat)
    | Fail(task: nat)
    | Cleanup(task: nat, removed: bool)
    | Crash(task: nat)

  /** What read_pipe hands to save_state and save_state does not refuse. */
  predicate Storable(d: Bytes) {
    d != [] && WellFormed(d) && |d| <= STATE_CAP
  }

  /** No save under way has this session and this pid: what the temp name
      relies on. */
  ghost predicate FreshName(w: World, session: string, pid: nat) {
    forall i | i in w.live :: w.live[i].session != session || w.live[i].pid != pid
  }

  ghost predicate CanHappen(w: World, e: Event) {
    match e
    case Begin(i, s, _, d) => i !in w.live && Session(s) && Storable(d)
    case Open(i) => i in w.live && w.live[i].inode.None? && !w.live[i].failed
    case Write(i, n) => i in w.live && w.live[i].Writing() && w.live[i].inode.value < |w.data|
                        && 0 < n && w.live[i].written + n <= |w.live[i].dump|
    case Rename(i) => i in w.live && w.live[i].Writing() && w.live[i].written == |w.live[i].dump|
    case Fail(i) => i in w.live && !w.live[i].failed
    case Cleanup(i, _) => i in w.live && w.live[i].failed
    case Crash(i) => i in w.live
  }

  ghost predicate Enabled(w: World, e: Event) {
    CanHappen(w, e) && (e.Begin? ==> FreshName(w, e.session, e.pid))
  }

  /** create_new: fails on an existing name. */
  function Opened(w: World, i: nat): World
    requires i in w.live
  {
    var p := w.live[i];
    if p.Tmp() in w.names then w.(live := w.live[i := p.(failed := true)])
    else w.(names := w.names[p.Tmp() := |w.data|], data := w.data + [[]],
            live := w.live[i := p.(inode := Some(|w.data|))])
  }

  /** rename(2) by name; a missing temp file fails it. */
  function Renamed(w: World, i: nat): World
    requires i in w.live
  {
    var p := w.live[i];
    if p.Tmp() !in w.names then w.(live := w.live[i := p.(failed := true)])
    else w.(names := (w.names - {p.Tmp()})[p.Target() := w.names[p.Tmp()]],
            live := w.live - {i}, log := w.log + [Saved(p.session, p.dump)])
  }

  ghost function Next(w: World, e: Event): World
    requires CanHappen(w, e)
  {
    match e
    case Begin(i, s, pid, d) => w.(live := w.live[i := Save(s, pid, d, None, 0, false)])
    case Open(i) => Opened(w, i)
    case Write(i, n) =>
      var p := w.live[i];
      var k := p.inode.value;
      w.(data := w.data[k := w.data[k] + p.dump[p.written..p.written + n]],
         live := w.live[i := p.(written := p.written + n)])
    case Rename(i) => Renamed(w, i)
    case Fail(i) => w.(live := w.live[i := w.live[i].(failed := true)])
    case Cleanup(i, removed) =>
      w.(names := if removed then w.names - {w.live[i].Tmp()} else w.names, live := w.live - {i})
    case Crash(i) => w.(live := w.live - {i})
  }

  ghost predicate AllPossible(w: World, events: seq<Event>)
    decreases |events|
  {
    events == [] || (CanHappen(w, events[0]) && AllPossible(Next(w, events[0]), events[1..]))
  }

  ghost predicate AllEnabled(w: World, events: seq<Event>): (r: bool)
    ensures r ==> AllPossible(w, events)
    decreases |events|
  {
    events == [] || (Enabled(w, events[0]) && AllEnabled(Next(w, events[0]), events[1..]))
  }

  ghost function Run(w: World, events: seq<Event>): World
    requires AllPossible(w, events)
    decreases |events|
  {
    if events == [] then w else Run(Next(w, events[0]), events[1..])
  }

  // -- the invariant ----------------------------------------------------------

  function Content(w: World, session: string): Option<Bytes> {
    var name := StateName(session);
    if name in w.names && w.names[name] < |w.data| then Some(w.data[w.names[name]]) else None
  }

  /** The last dump renamed for a session, or what was there at first. */
  function Latest(first: Option<Bytes>, log: seq<Saved>, session: string): Option<Bytes> {
    if log == [] then first
    else
      var last := log[|log| - 1];
      if last.session == session then Some(last.dump) else Latest(first, log[..|log| - 1], session)
  }

  /** An open save: its inode holds what it wrote, only its temp name leads
      there, and that name stays as long as it has not failed. */
  ghost predicate OpenOk(w: World, p: Save) {
    && p.written <= |p.dump|
    && match p.inode
       case None => p.written == 0
       case Some(k) =>
         && k < |w.data| && w.data[k] == p.dump[..p.written]
         && (forall name | name in w.names && w.names[name] == k :: name == p.Tmp())
         && (!p.failed ==> p.Tmp() in w.names && w.names[p.Tmp()] == k)
  }

  ghost predicate SavesOpenOk(w: World) {
    forall i | i in w.live :: OpenOk(w, w.live[i])
  }

  /** What is saved, and under what names. */
  ghost predicate SubjectsOk(w: World) {
    && (forall i | i in w.live :: Session(w.live[i].session) && Storable(w.live[i].dump))
    && (forall k | 0 <= k < |w.log| :: Session(w.log[k].session) && Storable(w.log[k].dump))
  }

  ghost predicate NamesOk(w: World) {
    forall name | name in w.names :: w.names[name] < |w.data|
  }

  ghost predicate OwnNames(w: World) {
    forall i, j | i in w.live && j in w.live && i != j ::
      w.live[i].session != w.live[j].session || w.live[i].pid != w.live[j].pid
  }

  /** Each state file holds the last dump renamed over it, complete. */
  ghost predicate FilesOk(w0: World, w: World) {
    forall s | Session(s) :: Content(w, s) == Latest(Content(w0, s), w.log, s)
  }

  ghost predicate Sound(w: World) {
    NamesOk(w) && OwnNames(w) && SubjectsOk(w) && SavesOpenOk(w)
  }

  ghost predicate Inv(w0: World, w: World) {
    Sound(w) && FilesOk(w0, w)
  }

  /** No save under way, whatever files there are. */
  ghost predicate Start(w: World) {
    NamesOk(w) && w.live == map[] && w.log == []
  }

  // -- every step keeps it ----------------------------------------------------

  /** The temp name of a live save is nobody else's name. */
  lemma TmpIsOwn(w: World, i: nat)
    requires SubjectsOk(w) && OwnNames(w) && i in w.live
    ensures forall s | Session(s) :: StateName(s) != w.live[i].Tmp()
    ensures forall j | j in w.live && j != i :: w.live[j].Tmp() != w.live[i].Tmp()
    ensures forall j | j in w.live :: w.live[j].Tmp() != w.live[i].Target()
  {
    var p := w.live[i];
    forall s | Session(s) ensures StateName(s) != p.Tmp() {
      NamesNeverCollide(s, 0, p.session, p.pid);
    }
    forall j | j in w.live && j != i ensures w.live[j].Tmp() != p.Tmp() {
      NamesNeverCollide(w.live[j].session, w.live[j].pid, p.session, p.pid);
    }
    forall j | j in w.live ensures w.live[j].Tmp() != p.Target() {
      NamesNeverCollide(p.session, 0, w.live[j].session, w.live[j].pid);
    }
  }

  /** The inode of a save that is still writing is nobody else's file. */
  lemma InodeIsOwn(w: World, i: nat)
    requires Sound(w) && i in w.live && w.live[i].Writing()
    ensures forall s | Session(s) && StateName(s) in w.names :: w.names[StateName(s)] != w.live[i].inode.value
    ensures forall j | j in w.live && j != i :: w.live[j].inode != w.live[i].inode
  {
    TmpIsOwn(w, i);
    var p := w.live[i];
    assert OpenOk(w, p);
    forall j | j in w.live && j != i ensures w.live[j].inode != p.inode {
      assert OpenOk(w, w.live[j]);
    }
  }

  lemma WritePiece(w: World, i: nat, n: nat)
    requires Sound(w) && Enabled(w, Write(i, n))
    ensures var p := w.live[i];
            w.data[p.inode.value] + p.dump[p.written..p.written + n] == p.dump[..p.written + n]
  {
    assert OpenOk(w, w.live[i]);
  }

  lemma OpensSame(w: World, w': World, i: nat)
    requires SavesOpenOk(w) && w'.names == w.names && w'.data == w.data
    requires forall j | j in w'.live && j != i :: j in w.live && w'.live[j] == w.live[j]
    requires i in w'.live ==> OpenOk(w', w'.live[i])
    ensures SavesOpenOk(w')
  {
    forall j | j in w'.live ensures OpenOk(w', w'.live[j]) {
      assert j != i ==> OpenOk(w, w.live[j]);
    }
  }

  /** What an event does to the other saves. */
  lemma OtherKept(w: World, e: Event, j: nat)
    requires Sound(w) && Enabled(w, e) && (e.Open? || e.Write? || e.Rename? || e.Cleanup?)
    requires j in w.live && j != e.task
    ensures OpenOk(Next(w, e), w.live[j])
  {
    TmpIsOwn(w, e.task);
    assert OpenOk(w, w.live[e.task]) && OpenOk(w, w.live[j]);
    if e.Write? || e.Rename? {
      InodeIsOwn(w, e.task);
    }
  }

  lemma OwnKept(w: World, e: Event)
    requires Sound(w) && Enabled(w, e) && (e.Open? || e.Write? || e.Rename?)
    ensures var w' := Next(w, e); e.task in w'.live ==> OpenOk(w', w'.live[e.task])
  {
    assert OpenOk(w, w.live[e.task]);
    if e.Write? {
      WritePiece(w, e.task, e.count);
    }
  }

  lemma OpensKept(w: World, e: Event)
    requires Sound(w) && Enabled(w, e)
    ensures SavesOpenOk(Next(w, e))
  {
    var w' := Next(w, e);
    if e.Begin? || e.Fail? || e.Crash? {
      assert e.Fail? ==> OpenOk(w, w.live[e.task]);
      OpensSame(w, w', e.task);
    } else {
      if !e.Cleanup? {
        OwnKept(w, e);
      }
      forall j | j in w'.live && j != e.task ensures OpenOk(w', w'.live[j]) {
        OtherKept(w, e, j);
      }
    }
  }

  lemma SubjectsKept(w: World, e: Event)
    requires SubjectsOk(w) && Enabled(w, e)
    ensures SubjectsOk(Next(w, e))
  {
    if e.Rename? {
      assert Session(w.live[e.task].session) && Storable(w.live[e.task].dump);
    }
  }

  lemma OwnNamesKept(w: World, e: Event)
    requires OwnNames(w) && Enabled(w, e)
    ensures OwnNames(Next(w, e))
  {
  }

  lemma NamesKept(w: World, e: Event)
    requires NamesOk(w) && Enabled(w, e)
    ensures NamesOk(Next(w, e))
  {
  }

  lemma SoundKept(w: World, e: Event)
    requires Sound(w) && Enabled(w, e)
    ensures Sound(Next(w, e))
  {
    OpensKept(w, e);
    SubjectsKept(w, e);
    OwnNamesKept(w, e);
    NamesKept(w, e);
  }

  /** Renaming replaces one state file with the whole dump; no other step
      touches any. */
  lemma ContentStep(w: World, e: Event, s: string)
    requires Sound(w) && Enabled(w, e) && Session(s)
    ensures Content(Next(w, e), s)
         == if e.Rename? && w.live[e.task].session == s then Some(w.live[e.task].dump) else Content(w, s)
  {
    if !e.Begin? {
      var p := w.live[e.task];
      TmpIsOwn(w, e.task);
      assert OpenOk(w, p);
      assert p.dump[..|p.dump|] == p.dump;
      if e.Write? {
        InodeIsOwn(w, e.task);
      }
      NamesNeverCollide(s, 0, p.session, 0);
    }
  }

  ghost predicate SameFiles(w: World, w': World) {
    forall s | Session(s) :: Content(w', s) == Content(w, s)
  }

  lemma QuietStep(w: World, e: Event)
    requires Sound(w) && Enabled(w, e) && !e.Rename?
    ensures Sound(Next(w, e)) && SameFiles(w, Next(w, e))
  {
    SoundKept(w, e);
    forall s | Session(s) ensures Content(Next(w, e), s) == Content(w, s) {
      ContentStep(w, e, s);
    }
  }

  lemma FilesKept(w0: World, w: World, e: Event)
    requires Inv(w0, w) && Enabled(w, e)
    ensures FilesOk(w0, Next(w, e))
  {
    var w' := Next(w, e);
    if e.Rename? {
      assert OpenOk(w, w.live[e.task]);
      assert w'.log[..|w'.log| - 1] == w.log;
    }
    forall s | Session(s) ensures Content(w', s) == Latest(Content(w0, s), w'.log, s) {
      ContentStep(w, e, s);
      assert Content(w, s) == Latest(Content(w0, s), w.log, s);
    }
  }

  lemma {:induction false} RunKeepsInv(w0: World, w: World, events: seq<Event>)
    requires Inv(w0, w) && AllEnabled(w, events)
    ensures Inv(w0, Run(w, events))
    decreases |events|
  {
    if events != [] {
      SoundKept(w, events[0]);
      FilesKept(w0, w, events[0]);
      RunKeepsInv(w0, Next(w, events[0]), events[1..]);
    }
  }

  // -- what it means for the files --------------------------------------------

  lemma {:induction false} LatestIsSaved(first: Option<Bytes>, log: seq<Saved>, s: string)
    ensures var c := Latest(first, log, s); c == first || (c.Some? && Saved(s, c.value) in log)
    ensures (exists k :: 0 <= k < |log| && log[k].session == s)
        ==> var c := Latest(first, log, s); c.Some? && Saved(s, c.value) in log
  {
    if log != [] {
      LatestIsSaved(first, log[..|log| - 1], s);
      assert log == log[..|log| - 1] + [log[|log| - 1]];
    }
  }

  /** A dump some event began to save. */
  ghost predicate Begun(events: seq<Event>, r: Saved) {
    exists e :: e in events && e.Begin? && e.session == r.session && e.dump == r.dump
  }

  ghost predicate Underway(w: World, r: Saved) {
    exists i :: i in w.live && w.live[i].session == r.session && w.live[i].dump == r.dump
  }

  lemma BegunStep(w: World, e: Event, r: Saved)
    requires CanHappen(w, e)
    ensures r in Next(w, e).log ==> r in w.log || Underway(w, r)
    ensures Underway(Next(w, e), r) ==> Underway(w, r) || Begun([e], r)
  {
    var w' := Next(w, e);
    if Underway(w', r) {
      var i :| i in w'.live && w'.live[i].session == r.session && w'.live[i].dump == r.dump;
      assert e in [e];
      if !(e.Begin? && e.task == i) {
        assert i in w.live;
      }
    }
  }

  lemma {:induction false} LogIsBegun(w: World, events: seq<Event>, r: Saved)
    requires AllPossible(w, events) && r in Run(w, events).log
    ensures r in w.log || Underway(w, r) || Begun(events, r)
    decreases |events|
  {
    if events != [] {
      var e := events[0];
      BegunStep(w, e, r);
      LogIsBegun(Next(w, e), events[1..], r);
      assert forall x | x in [e] || x in events[1..] :: x in events;
    }
  }

  /** Whatever saves run, fail and crash, in whatever order: a session's file
      is what it was at first or one complete dump saved for that session, and
      always the last one renamed. */
  lemma EveryInterleaving(w0: World, events: seq<Event>, s: string)
    requires Start(w0) && AllEnabled(w0, events) && Session(s)
    ensures var w := Run(w0, events);
            var c := Content(w, s);
            && c == Latest(Content(w0, s), w.log, s)
            && (c == Content(w0, s) || (c.Some? && Begun(events, Saved(s, c.value))))
  {
    RunKeepsInv(w0, w0, events);
    var w := Run(w0, events);
    assert Content(w, s) == Latest(Content(w0, s), w.log, s);
    LatestIsSaved(Content(w0, s), w.log, s);
    if Content(w, s) != Content(w0, s) {
      LogIsBegun(w0, events, Saved(s, Content(w, s).value));
    }
  }

  /** load_state: a missing, oversized, empty or non-UTF-8 file is none. */
  function Restored(w: World, session: string): Option<Bytes> {
    match Content(w, session)
    case None => None
    case Some(c) => if Storable(c) then Some(c) else None
  }

  /** The next command of a session starts from the last dump renamed for it,
      byte for byte, whatever else went on. */
  lemma LoadReturnsLastSaved(w0: World, events: seq<Event>, s: string, k: nat)
    requires Start(w0) && AllEnabled(w0, events) && Session(s)
    requires k < |Run(w0, events).log| && Run(w0, events).log[k].session == s
    requires forall j | k < j < |Run(w0, events).log| :: Run(w0, events).log[j].session != s
    ensures Restored(Run(w0, events), s) == Some(Run(w0, events).log[k].dump)
  {
    RunKeepsInv(w0, w0, events);
    var w := Run(w0, events);
    LatestAt(Content(w0, s), w.log, s, k);
    assert Content(w, s) == Latest(Content(w0, s), w.log, s);
    assert Storable(w.log[k].dump);
  }

  lemma {:induction false} LatestAt(first: Option<Bytes>, log: seq<Saved>, s: string, k: nat)
    requires k < |log| && log[k].session == s && forall j | k < j < |log| :: log[j].session != s
    ensures Latest(first, log, s) == Some(log[k].dump)
  {
    if k < |log| - 1 {
      LatestAt(first, log[..|log| - 1], s, k);
    }
  }

  // -- readers ----------------------------------------------------------------

  /** No save under way writes to it. */
  ghost predicate Unheld(w: World, k: nat) {
    k < |w.data| && forall i | i in w.live :: w.live[i].inode != Some(k)
  }

  lemma {:induction false} UnheldFrozen(w: World, events: seq<Event>, k: nat)
    requires Sound(w) && AllEnabled(w, events) && Unheld(w, k)
    ensures Unheld(Run(w, events), k) && Run(w, events).data[k] == w.data[k]
    decreases |events|
  {
    if events != [] {
      SoundKept(w, events[0]);
      UnheldFrozen(Next(w, events[0]), events[1..], k);
    }
  }

  /** A reader that opened a session's file reads that one content to the end,
      through any saves that replace the file meanwhile. */
  lemma OpenedFileFrozen(w: World, events: seq<Event>, s: string)
    requires Sound(w) && AllEnabled(w, events) && Session(s) && StateName(s) in w.names
    ensures var k := w.names[StateName(s)];
            k < |w.data| && k < |Run(w, events).data| && Run(w, events).data[k] == w.data[k]
  {
    var k := w.names[StateName(s)];
    forall i | i in w.live ensures w.live[i].inode != Some(k) {
      TmpIsOwn(w, i);
      assert OpenOk(w, w.live[i]);
    }
    UnheldFrozen(w, events, k);
  }

  // -- exactly when saves are atomic ------------------------------------------

  lemma PossibleCons(w: World, e: Event, rest: seq<Event>)
    requires CanHappen(w, e) && AllPossible(Next(w, e), rest)
    ensures AllPossible(w, [e] + rest) && Run(w, [e] + rest) == Run(Next(w, e), rest)
  {
    assert ([e] + rest)[1..] == rest;
  }

  /** Three saves that share a pid, as on hosts that share a home directory:
      the second removes the first one's temp file, and the first then renames
      the third one's, still empty. */
  function Torn(s: string, pid: nat, d: Bytes): seq<Event> {
    [Begin(0, s, pid, d)] + ([Open(0)] + ([Write(0, |d|)] + TornTail(s, pid, d)))
  }

  function TornTail(s: string, pid: nat, d: Bytes): seq<Event> {
    [Begin(1, s, pid, d)] + ([Open(1)] + ([Cleanup(1, true)]
    + ([Begin(2, s, pid, d)] + ([Open(2)] + ([Rename(0)] + [])))))
  }

  /** The first save with its dump written, nothing else going on. */
  function Written(s: string, pid: nat, d: Bytes): World {
    World(map[TmpName(s, pid) := 0], [d], map[0 := Save(s, pid, d, Some(0), |d|, false)], [])
  }

  lemma TornStart(s: string, pid: nat, d: Bytes)
    requires Session(s) && Storable(d)
    ensures CanHappen(EMPTY, Begin(0, s, pid, d))
    ensures var w1 := Next(EMPTY, Begin(0, s, pid, d));
            CanHappen(w1, Open(0)) && CanHappen(Next(w1, Open(0)), Write(0, |d|))
            && Next(Next(w1, Open(0)), Write(0, |d|)) == Written(s, pid, d)
  {
    var w := EMPTY;
    var w1 := Next(w, Begin(0, s, pid, d));
    var w2 := Next(w1, Open(0));
    assert w2.data[0] + d[0..|d|] == d;
    assert w2.data[0 := d] == [d];
  }

  lemma TornEnd(s: string, pid: nat, d: Bytes)
    requires Session(s) && Storable(d)
    ensures AllPossible(Written(s, pid, d), TornTail(s, pid, d))
    ensures Content(Run(Written(s, pid, d), TornTail(s, pid, d)), s) == Some([])
  {
    var w3 := Written(s, pid, d);
    var w4 := Next(w3, Begin(1, s, pid, d));
    var w5 := Next(w4, Open(1));
    var w6 := Next(w5, Cleanup(1, true));
    assert w6.names == map[];
    var w7 := Next(w6, Begin(2, s, pid, d));
    var w8 := Next(w7, Open(2));
    assert w8.names == map[TmpName(s, pid) := 1] && w8.data == [d, []];
    var w9 := Next(w8, Rename(0));
    PossibleCons(w8, Rename(0), []);
    PossibleCons(w7, Open(2), [Rename(0)] + []);
    PossibleCons(w6, Begin(2, s, pid, d), [Open(2)] + ([Rename(0)] + []));
    PossibleCons(w5, Cleanup(1, true), [Begin(2, s, pid, d)] + ([Open(2)] + ([Rename(0)] + [])));
    PossibleCons(w4, Open(1), [Cleanup(1, true)] + ([Begin(2, s, pid, d)] + ([Open(2)] + ([Rename(0)] + []))));
    PossibleCons(w3, Begin(1, s, pid, d),
      [Open(1)] + ([Cleanup(1, true)] + ([Begin(2, s, pid, d)] + ([Open(2)] + ([Rename(0)] + [])))));
  }

  /** The file ends up neither absent nor any dump, whatever the session, the
      pid and the dump. */
  lemma SharedPidTears(s: string, pid: nat, d: Bytes)
    requires Session(s) && Storable(d)
    ensures AllPossible(EMPTY, Torn(s, pid, d))
    ensures Content(Run(EMPTY, Torn(s, pid, d)), s) == Some([])
  {
    var w := EMPTY;
    TornStart(s, pid, d);
    TornEnd(s, pid, d);
    var w1 := Next(w, Begin(0, s, pid, d));
    PossibleCons(Next(w1, Open(0)), Write(0, |d|), TornTail(s, pid, d));
    PossibleCons(w1, Open(0), [Write(0, |d|)] + TornTail(s, pid, d));
    PossibleCons(w, Begin(0, s, pid, d), [Open(0)] + ([Write(0, |d|)] + TornTail(s, pid, d)));
  }

  /** A (session, pid) pair that saves under way may share. */
  type Shareable = (string, nat) -> bool

  /** Events possible when only those pairs are shared. */
  ghost predicate AllAllowed(share: Shareable, w: World, events: seq<Event>): (r: bool)
    ensures r ==> AllPossible(w, events)
    decreases |events|
  {
    events == [] || (CanHappen(w, events[0])
                     && (events[0].Begin? ==> FreshName(w, events[0].session, events[0].pid)
                                              || share(events[0].session, events[0].pid))
                     && AllAllowed(share, Next(w, events[0]), events[1..]))
  }

  /** The session's file is its first content or a complete dump saved for it. */
  ghost predicate Whole(w0: World, events: seq<Event>, s: string)
    requires AllPossible(w0, events)
  {
    var c := Content(Run(w0, events), s);
    c == Content(w0, s) || (c.Some? && Begun(events, Saved(s, c.value)))
  }

  ghost predicate AlwaysWhole(share: Shareable) {
    forall w0, events, s | Start(w0) && AllAllowed(share, w0, events) && Session(s) :: Whole(w0, events, s)
  }

  /** Saves are atomic in every interleaving exactly when no two saves under
      way may share both their session and their pid. */
  lemma AtomicExactly(share: Shareable)
    ensures AlwaysWhole(share) <==> forall s, pid | Session(s) :: !share(s, pid)
  {
    if forall s, pid | Session(s) :: !share(s, pid) {
      forall w0, events, s | Start(w0) && AllAllowed(share, w0, events) && Session(s) ensures Whole(w0, events, s) {
        UnsharedIsEnabled(share, w0, events);
        EveryInterleaving(w0, events, s);
      }
    } else {
      var s, pid :| Session(s) && share(s, pid);
      SharedTears(share, s, pid);
    }
  }

  lemma {:induction false} UnsharedIsEnabled(share: Shareable, w: World, events: seq<Event>)
    requires AllAllowed(share, w, events) && forall s, pid | Session(s) :: !share(s, pid)
    ensures AllEnabled(w, events)
    decreases |events|
  {
    if events != [] {
      UnsharedIsEnabled(share, Next(w, events[0]), events[1..]);
    }
  }

  /** Every save the events begin is this one. */
  ghost predicate OnlySaves(events: seq<Event>, s: string, pid: nat, d: Bytes) {
    forall k | 0 <= k < |events| && events[k].Begin? ::
      events[k].session == s && events[k].pid == pid && events[k].dump == d
  }

  lemma TornOnlySaves(s: string, pid: nat, d: Bytes)
    ensures OnlySaves(Torn(s, pid, d), s, pid, d)
  {
    var tail := TornTail(s, pid, d);
    assert tail == [Begin(1, s, pid, d), Open(1), Cleanup(1, true), Begin(2, s, pid, d), Open(2), Rename(0)];
    assert Torn(s, pid, d) == [Begin(0, s, pid, d), Open(0), Write(0, |d|)] + tail;
  }

  lemma {:induction false} SharedAllowed(share: Shareable, s: string, pid: nat, d: Bytes, w: World, events: seq<Event>)
    requires share(s, pid) && AllPossible(w, events) && OnlySaves(events, s, pid, d)
    ensures AllAllowed(share, w, events)
    decreases |events|
  {
    if events != [] {
      SharedAllowed(share, s, pid, d, Next(w, events[0]), events[1..]);
    }
  }

  lemma NotWhole(w0: World, events: seq<Event>, s: string, pid: nat, d: Bytes)
    requires AllPossible(w0, events) && OnlySaves(events, s, pid, d) && d != []
    requires Content(w0, s) == None && Content(Run(w0, events), s) == Some([])
    ensures !Whole(w0, events, s)
  {
  }

  lemma SharedTears(share: Shareable, s: string, pid: nat)
    requires Session(s) && share(s, pid)
    ensures !AlwaysWhole(share)
  {
    var d: Bytes := [0x61];
    assert Storable(d) by { assert CharLength(d) == 1 && d[1..] == []; }
    var events := Torn(s, pid, d);
    SharedPidTears(s, pid, d);
    TornOnlySaves(s, pid, d);
    SharedAllowed(share, s, pid, d, EMPTY, events);
    NotWhole(EMPTY, events, s, pid, d);
  }

  // -- the functions themselves -----------------------------------------------

  /** What the environment makes of one save: whether there is a home and its
      directory can be set up, which system calls fail, and how much each write
      takes. */
  datatype Fortune = Fortune(place: bool, opens: bool, takes: seq<nat>, renames: bool, removes: bool)

  /** How much of the rest of a dump short writes get out: one that takes
      nothing, or a failure behind the last one, ends it. */
  function Taken(rest: nat, takes: seq<nat>): (n: nat)
    ensures n <= rest
  {
    if rest == 0 || takes == [] || takes[0] == 0 then 0
    else Min(takes[0], rest) + Taken(rest - Min(takes[0], rest), takes[1..])
  }

  /** What the writes take before the first that takes nothing. */
  function UntilNone(takes: seq<nat>): nat {
    if takes == [] || takes[0] == 0 then 0 else takes[0] + UntilNone(takes[1..])
  }

  /** Together they take all they can, up to what there is. */
  lemma {:induction false} TakenMeans(rest: nat, takes: seq<nat>)
    ensures Taken(rest, takes) == Min(rest, UntilNone(takes))
    decreases |takes|
  {
    if rest > 0 && takes != [] && takes[0] > 0 {
      TakenMeans(rest - Min(takes[0], rest), takes[1..]);
    }
  }

  /** Pieces written one behind the other are one write. */
  ghost function Wrote(w: World, i: nat, n: nat): World
    requires n > 0 ==> CanHappen(w, Write(i, n))
  {
    if n == 0 then w else Next(w, Write(i, n))
  }

  lemma WritesMerge(w: World, i: nat, m: nat, n: nat)
    requires i in w.live && w.live[i].Writing() && w.live[i].inode.value < |w.data|
    requires w.live[i].written + m + n <= |w.live[i].dump| && n > 0
    ensures CanHappen(Wrote(w, i, m), Write(i, n)) && Next(Wrote(w, i, m), Write(i, n)) == Wrote(w, i, m + n)
  {
    var p := w.live[i];
    var k, a := p.inode.value, p.written;
    assert w.data[k] + p.dump[a..a + m] + p.dump[a + m..a + m + n] == w.data[k] + p.dump[a..a + m + n];
  }

  /** The three fallible steps of a save, with nothing in between. */
  ghost function Attempt(w: World, i: nat, fortune: Fortune): World
    requires CanHappen(w, Open(i)) && w.live[i].written == 0
  {
    if !fortune.opens then Next(w, Event.Fail(i))
    else
      var open := Next(w, Open(i));
      if open.live[i].failed then open
      else
        var size := |w.live[i].dump|;
        var wrote := Wrote(open, i, Taken(size, fortune.takes));
        if Taken(size, fortune.takes) == size && fortune.renames then Next(wrote, Rename(i))
        else Next(wrote, Event.Fail(i))
  }

  ghost predicate Succeeds(w: World, i: nat, fortune: Fortune)
    requires i in w.live
  {
    && fortune.opens && w.live[i].Tmp() !in w.names
    && Taken(|w.live[i].dump|, fortune.takes) == |w.live[i].dump| && fortune.renames
  }

  lemma AttemptWrites(w: World, i: nat, n: nat)
    requires Sound(w) && CanHappen(w, Open(i)) && w.live[i].Tmp() !in w.names
    requires n <= |w.live[i].dump| && w.live[i].written == 0
    ensures var wrote := Wrote(Next(w, Open(i)), i, n);
            Sound(wrote) && SameFiles(w, wrote)
  {
    QuietStep(w, Open(i));
    if n > 0 {
      QuietStep(Next(w, Open(i)), Write(i, n));
    }
  }

  lemma AttemptKeeps(w: World, i: nat, fortune: Fortune)
    requires Sound(w) && CanHappen(w, Open(i)) && w.live[i].written == 0
    ensures Sound(Attempt(w, i, fortune))
    ensures !Succeeds(w, i, fortune) ==> SameFiles(w, Attempt(w, i, fortune))
  {
    if !fortune.opens {
      QuietStep(w, Event.Fail(i));
    } else if w.live[i].Tmp() in w.names {
      QuietStep(w, Open(i));
    } else {
      var n := Taken(|w.live[i].dump|, fortune.takes);
      AttemptWrites(w, i, n);
      var wrote := Wrote(Next(w, Open(i)), i, n);
      if n == |w.live[i].dump| && fortune.renames {
        SoundKept(wrote, Rename(i));
      } else {
        QuietStep(wrote, Event.Fail(i));
      }
    }
  }

  lemma AttemptPublishes(w: World, i: nat, fortune: Fortune, s: string)
    requires Sound(w) && CanHappen(w, Open(i)) && w.live[i].written == 0
    requires Succeeds(w, i, fortune) && Session(s)
    ensures Content(Attempt(w, i, fortune), s)
         == if s == w.live[i].session then Some(w.live[i].dump) else Content(w, s)
  {
    var n := |w.live[i].dump|;
    AttemptWrites(w, i, n);
    ContentStep(Wrote(Next(w, Open(i)), i, n), Rename(i), s);
  }

  lemma AttemptEnds(w: World, i: nat, fortune: Fortune)
    requires CanHappen(w, Open(i)) && w.live[i].written == 0
    ensures Attempt(w, i, fortune).live - {i} == w.live - {i}
    ensures Succeeds(w, i, fortune) ==>
              var w' := Attempt(w, i, fortune);
              i !in w'.live && w'.log == w.log + [Saved(w.live[i].session, w.live[i].dump)]
    ensures !Succeeds(w, i, fortune) ==>
              var w' := Attempt(w, i, fortune);
              i in w'.live && w'.live[i].failed && w'.log == w.log
  {
  }

  /** All of save_state, with nothing in between. */
  ghost function WholeSave(w: World, i: nat, session: string, pid: nat, dump: Bytes, fortune: Fortune): World
    requires i !in w.live && Session(session) && dump != [] && WellFormed(dump)
  {
    if |dump| > STATE_CAP || !fortune.place then w
    else
      var begun := Next(w, Begin(i, session, pid, dump));
      var tried := Attempt(begun, i, fortune);
      if Succeeds(begun, i, fortune) then tried else Next(tried, Cleanup(i, fortune.removes))
  }

  lemma AddRemove(live: map<nat, Save>, i: nat, p: Save)
    requires i !in live
    ensures live[i := p] - {i} == live
  {
  }

  /** Behind an attempt that went through. */
  lemma PublishedEnds(w: World, i: nat, fortune: Fortune, s: string)
    requires Sound(w) && CanHappen(w, Open(i)) && w.live[i].written == 0 && Session(s)
    requires Succeeds(w, i, fortune)
    ensures var w' := Attempt(w, i, fortune);
            && Sound(w') && w'.live == w.live - {i} && w'.log == w.log + [Saved(w.live[i].session, w.live[i].dump)]
            && Content(w', s) == if s == w.live[i].session then Some(w.live[i].dump) else Content(w, s)
  {
    AttemptKeeps(w, i, fortune);
    AttemptEnds(w, i, fortune);
    AttemptPublishes(w, i, fortune, s);
    var w' := Attempt(w, i, fortune);
    assert w'.live - {i} == w'.live;
  }

  /** Behind one that did not. */
  lemma AbandonedEnds(w: World, i: nat, fortune: Fortune, s: string)
    requires Sound(w) && CanHappen(w, Open(i)) && w.live[i].written == 0 && Session(s)
    requires !Succeeds(w, i, fortune)
    ensures CanHappen(Attempt(w, i, fortune), Cleanup(i, fortune.removes))
    ensures var w' := Next(Attempt(w, i, fortune), Cleanup(i, fortune.removes));
            Sound(w') && w'.live == w.live - {i} && w'.log == w.log && Content(w', s) == Content(w, s)
  {
    AttemptKeeps(w, i, fortune);
    AttemptEnds(w, i, fortune);
    QuietStep(Attempt(w, i, fortune), Cleanup(i, fortune.removes));
  }

  /** A save on its own either makes the session's file the whole dump or
      leaves every session's file alone; it leaves no save under way. */
  lemma WholeSaveMeans(w: World, i: nat, session: string, pid: nat, dump: Bytes, fortune: Fortune, s: string)
    requires Sound(w) && i !in w.live && Session(session) && FreshName(w, session, pid) && Session(s)
    requires dump != [] && WellFormed(dump)
    ensures var w' := WholeSave(w, i, session, pid, dump, fortune);
            var saved := |dump| <= STATE_CAP && fortune.place && fortune.opens && TmpName(session, pid) !in w.names
                         && UntilNone(fortune.takes) >= |dump| && fortune.renames;
            && Sound(w') && w'.live == w.live
            && w'.log == (if saved then w.log + [Saved(session, dump)] else w.log)
            && Content(w', s) == if saved && s == session then Some(dump) else Content(w, s)
  {
    TakenMeans(|dump|, fortune.takes);
    if |dump| <= STATE_CAP && fortune.place {
      QuietStep(w, Begin(i, session, pid, dump));
      var begun := Next(w, Begin(i, session, pid, dump));
      AddRemove(w.live, i, Save(session, pid, dump, None, 0, false));
      if Succeeds(begun, i, fortune) {
        PublishedEnds(begun, i, fortune, s);
      } else {
        AbandonedEnds(begun, i, fortune, s);
      }
    }
  }

  /** Collecting a dump from its pipe and saving what was collected. */
  ghost function CollectAndSave(w: World, i: nat, session: string, pid: nat, got: seq<Bytes>, fortune: Fortune): World
    requires i !in w.live && Session(session) && Reads(got)
  {
    CollectMeans(got, [], STATE_CAP);
    match Collect(got, [], STATE_CAP)
    case None => w
    case Some(d) => WholeSave(w, i, session, pid, d, fortune)
  }

  /** When the file system obliges, the session's next command starts from the
      bytes before the first NUL (or the end) if those are a state at all, and
      from the previous state otherwise, however the pipe split them; other
      sessions start from what they had. */
  lemma NextCommandStartsFrom(w: World, i: nat, session: string, pid: nat, got: seq<Bytes>, fortune: Fortune, s: string)
    requires Sound(w) && i !in w.live && Session(session) && FreshName(w, session, pid) && Reads(got) && Session(s)
    requires fortune.place && fortune.opens && fortune.renames && TmpName(session, pid) !in w.names
    requires UntilNone(fortune.takes) >= STATE_CAP
    ensures var dump := BeforeNul(Flatten(got));
            Restored(CollectAndSave(w, i, session, pid, got, fortune), s)
              == if s == session && dump != [] && Text(dump) && |dump| <= STATE_CAP then Some(dump) else Restored(w, s)
  {
    WellFormedIsText(BeforeNul(Flatten(got)));
    CollectMeans(got, [], STATE_CAP);
    assert [] + Flatten(got) == Flatten(got);
    var r := Collect(got, [], STATE_CAP);
    if r.Some? {
      WellFormedIsText(r.value);
      TakenMeans(|r.value|, fortune.takes);
      WholeSaveMeans(w, i, session, pid, r.value, fortune, s);
    }
  }

  datatype Loaded = NoHome | State(state: Option<Bytes>)

  /** The sessions directory, with the saves other processes have under way. */
  class Directory {
    var names: map<string, nat>
    var data: seq<Bytes>
    ghost var live: map<nat, Save>
    ghost var log: seq<Saved>

    ghost function View(): World
      reads this
    {
      World(names, data, live, log)
    }

    method OpenNew(ghost i: nat, tmp: string) returns (f: Option<nat>)
      requires CanHappen(View(), Open(i)) && tmp == live[i].Tmp()
      modifies this
      ensures View() == Next(old(View()), Open(i))
      ensures i in live && f == live[i].inode && live[i].failed == f.None?
    {
      if tmp in names {
        f := None;
        live := live[i := live[i].(failed := true)];
      } else {
        f := Some(|data|);
        live := live[i := live[i].(inode := Some(|data|))];
        names := names[tmp := |data|];
        data := data + [[]];
      }
    }

    method WriteSome(ghost i: nat, f: nat, piece: Bytes)
      requires CanHappen(View(), Write(i, |piece|)) && live[i].inode == Some(f)
      requires piece == live[i].dump[live[i].written..live[i].written + |piece|]
      modifies this
      ensures View() == Next(old(View()), Write(i, |piece|))
    {
      data := data[f := data[f] + piece];
      live := live[i := live[i].(written := live[i].written + |piece|)];
    }

    method RenameOver(ghost i: nat, tmp: string, path: string) returns (ok: bool)
      requires CanHappen(View(), Rename(i)) && tmp == live[i].Tmp() && path == live[i].Target()
      modifies this
      ensures View() == Next(old(View()), Rename(i))
      ensures ok == (tmp in old(names))
    {
      ok := tmp in names;
      if ok {
        var f := names[tmp];
        names := (names - {tmp})[path := f];
        log := log + [Saved(live[i].session, live[i].dump)];
        live := live - {i};
      } else {
        live := live[i := live[i].(failed := true)];
      }
    }

    method RemoveFile(ghost i: nat, tmp: string, removes: bool)
      requires CanHappen(View(), Cleanup(i, removes)) && tmp == live[i].Tmp()
      modifies this
      ensures View() == Next(old(View()), Cleanup(i, removes))
    {
      if removes {
        names := names - {tmp};
      }
      live := live - {i};
    }

    /** A missing home is an error; a file that is missing, unreadable,
        oversized, empty or not UTF-8 is no state. */
    method LoadState(session: string, home: bool, readable: bool) returns (r: Loaded)
      requires NamesOk(View())
      ensures r == if !home then NoHome else State(if readable then Restored(View(), session) else None)
      ensures home ==> r.State? && forall d ::
                r.state == Some(d) <==> readable && Content(View(), session) == Some(d)
                                        && d != [] && Text(d) && |d| <= STATE_CAP
    {
      if !home {
        return NoHome;
      }
      var path := StateName(session);
      if path !in names || !readable {
        return State(None);
      }
      var bytes := data[names[path]];
      WellFormedIsText(bytes);
      if |bytes| > STATE_CAP {
        return State(None);
      }
      r := State(if bytes != [] && WellFormed(bytes) then Some(bytes) else None);
    }

    method WriteAll(ghost i: nat, f: nat, dump: Bytes, takes: seq<nat>) returns (ok: bool)
      requires i in live && live[i].Writing() && live[i].inode == Some(f) && f < |data|
      requires live[i].dump == dump && live[i].written == 0
      modifies this
      ensures View() == Wrote(old(View()), i, Taken(|dump|, takes))
      ensures ok == (Taken(|dump|, takes) == |dump|)
    {
      var written: nat, round: nat := 0, 0;
      while written < |dump| && round < |takes| && takes[round] > 0
        invariant round <= |takes| && written <= |dump|
        invariant View() == Wrote(old(View()), i, written)
        invariant Taken(|dump|, takes) == written + Taken(|dump| - written, takes[round..])
        decreases |takes| - round
      {
        var n := Min(takes[round], |dump| - written);
        WritesMerge(old(View()), i, written, n);
        WriteSome(i, f, dump[written..written + n]);
        written := written + n;
        round := round + 1;
      }
      ok := written == |dump|;
    }

    /** The closure around the three fallible steps. */
    method Try(ghost i: nat, tmp: string, path: string, dump: Bytes, fortune: Fortune) returns (saved: bool)
      requires CanHappen(View(), Open(i)) && live[i].written == 0
      requires tmp == live[i].Tmp() && path == live[i].Target() && dump == live[i].dump
      modifies this
      ensures View() == Attempt(old(View()), i, fortune)
      ensures saved == Succeeds(old(View()), i, fortune)
    {
      saved := false;
      if !fortune.opens {
        live := live[i := live[i].(failed := true)];
        return;
      }
      var f := OpenNew(i, tmp);
      if f.None? {
        return;
      }
      var whole := WriteAll(i, f.value, dump, fortune.takes);
      if !whole || !fortune.renames {
        live := live[i := live[i].(failed := true)];
        return;
      }
      saved := RenameOver(i, tmp, path);
    }

    /** The save is whole-or-nothing in the sense of WholeSaveMeans. */
    method SaveState(ghost i: nat, session: string, pid: nat, dump: Bytes, fortune: Fortune) returns (saved: bool)
      requires i !in live && Session(session) && dump != [] && WellFormed(dump)
      modifies this
      ensures View() == WholeSave(old(View()), i, session, pid, dump, fortune)
      ensures saved <==> |log| > |old(log)|
    {
      if |dump| > STATE_CAP || !fortune.place {
        return false;
      }
      live := live[i := Save(session, pid, dump, None, 0, false)];
      var tmp := TmpName(session, pid);
      saved := Try(i, tmp, StateName(session), dump, fortune);
      if !saved {
        RemoveFile(i, tmp, fortune.removes);
      }
    }
  }
}
