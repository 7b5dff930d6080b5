/** The child's descriptor set-up between fork and exec: a parallel move of
    sources that may stand on other pairs' targets, through scratch slots.
    dup2() and fcntl() follow POSIX.1-2017, System Interfaces. */
module FdRelocation {
  import opened Prelude

  /** A descriptor names an open file description and carries FD_CLOEXEC;
      O_NONBLOCK lives on the description, shared by all its descriptors. */
  datatype Desc = Desc(file: nat, cloexec: bool)

  const SCRATCH_FLOOR: nat := 12

  /** stderr, rcfile, command, restore, cwd report, state dump. */
  function Target(i: nat): nat
    requires i < 6
  {
    if i == 0 then 3 else if i == 1 then 7 else if i == 2 then 8 else if i == 3 then 9 else if i == 4 then 10 else 11
  }

  class Process {
    var fds: map<nat, Desc>
    var nonblock: set<nat>
    var faults: seq<bool>

    /** No system call will fail for a reason outside the table. */
    ghost predicate Calm()
      reads this`faults
    {
      forall k | 0 <= k < |faults| :: !faults[k]
    }

    /** Whether the next system call fails for a reason outside the table. */
    method Fault() returns (f: bool)
      modifies this`faults
      ensures old(Calm()) ==> Calm() && !f
    {
      f := false;
      if faults != [] {
        f, faults := faults[0], faults[1..];
      }
    }

    method Dup2(src: nat, dst: nat) returns (ok: bool)
      modifies this`faults, this`fds
      ensures old(Calm()) ==> Calm() && (ok <==> src in old(fds))
      ensures ok ==> src in old(fds)
      ensures !ok ==> fds == old(fds)
      ensures ok ==> fds == if src == dst then old(fds) else old(fds)[dst := Desc(old(fds)[src].file, false)]
    {
      var fault := Fault();
      if fault || src !in fds {
        return false;
      }
      if src != dst {
        fds := fds[dst := Desc(fds[src].file, false)];
      }
      ok := true;
    }

    /** F_DUPFD: the lowest free descriptor that is at least `floor`. */
    method DupFd(src: nat, floor: nat) returns (got: Option<nat>)
      modifies this`faults, this`fds
      ensures old(Calm()) ==> Calm() && (got.Some? <==> src in old(fds))
      ensures got.None? ==> fds == old(fds)
      ensures got.Some? ==> src in old(fds) && got.value >= floor && got.value !in old(fds)
      ensures got.Some? ==> forall k | floor <= k < got.value :: k in old(fds)
      ensures got.Some? ==> fds == old(fds)[got.value := Desc(old(fds)[src].file, false)]
    {
      var fault := Fault();
      if fault || src !in fds {
        return None;
      }
      var n := floor;
      while n in fds
        invariant n >= floor && forall k | floor <= k < n :: k in fds
        decreases (set k | k in fds && k >= n)
      {
        ghost var above := set k | k in fds && k >= n;
        assert n in above;
        n := n + 1;
        assert n - 1 !in (set k | k in fds && k >= n);
      }
      fds := fds[n := Desc(fds[src].file, false)];
      got := Some(n);
    }

    method Close(fd: nat)
      modifies this`fds
      ensures fds == old(fds) - {fd}
    {
      fds := fds - {fd};
    }

    /** F_GETFL, then F_SETFL without O_NONBLOCK. */
    method SetBlocking(fd: nat) returns (ok: bool)
      modifies this`faults, this`nonblock
      ensures old(Calm()) ==> Calm() && (ok <==> fd in fds)
      ensures ok ==> fd in fds && nonblock == old(nonblock) - {fds[fd].file}
    {
      var fault := Fault();
      if fault || fd !in fds {
        return false;
      }
      nonblock := nonblock - {fds[fd].file};
      ok := true;
    }

    /** F_SETFD with no flags. */
    method ClearCloexec(fd: nat) returns (ok: bool)
      modifies this`faults, this`fds
      ensures old(Calm()) ==> Calm() && (ok <==> fd in old(fds))
      ensures ok ==> fd in old(fds) && fds == old(fds)[fd := Desc(old(fds)[fd].file, false)]
    {
      var fault := Fault();
      if fault || fd !in fds {
        return false;
      }
      fds := fds[fd := fds[fd].(cloexec := false)];
      ok := true;
    }

    /** The relocation. `sources` are in the order of Target; `stdin` and
        `stdout` go to 0 and 1. False only when a system call failed, in which
        case nothing is executed. */
    method Relocate(stdin: nat, stdout: nat, sources: seq<nat>) returns (ok: bool)
      requires |sources| == 6
      requires stdin >= 3 && stdout >= 3 && forall i | 0 <= i < 6 :: sources[i] >= 3
      requires stdin in fds && stdout in fds && forall i | 0 <= i < 6 :: sources[i] in fds
      modifies this
      ensures old(Calm()) ==> ok
      ensures ok ==> Moved(old(fds), fds, stdin, stdout, sources)
      ensures ok ==> nonblock == old(nonblock) - PipeFiles(old(fds), stdin, stdout, sources)
    {
      ghost var was := fds;
      ok := MoveStreams(stdin, stdout);
      if !ok { return; }
      ghost var base := fds;
      ok := MoveParallel(sources);
      if !ok { return; }
      MovedExactly(was, base, fds, stdin, stdout, sources);
      MovedHasPipes(was, fds, stdin, stdout, sources);
      ok := ClearNonblock();
      if !ok { return; }
      ok := SweepCloexec(base, sources);
    }

    /** stdin and stdout go straight to 0 and 1, which no source is. */
    method MoveStreams(stdin: nat, stdout: nat) returns (ok: bool)
      requires stdin >= 3 && stdout >= 3 && stdin in fds && stdout in fds
      modifies this`faults, this`fds
      ensures old(Calm()) ==> Calm() && ok
      ensures ok ==> fds == old(fds)[0 := Desc(old(fds)[stdin].file, false)][1 := Desc(old(fds)[stdout].file, false)]
    {
      ok := Dup2(stdin, 0);
      if !ok { return; }
      ok := Dup2(stdout, 1);
    }

    /** The parallel move through the scratch slots. */
    method MoveParallel(sources: seq<nat>) returns (ok: bool)
      requires |sources| == 6 && forall i | 0 <= i < 6 :: sources[i] in fds
      modifies this`faults, this`fds
      ensures old(Calm()) ==> Calm() && ok
      ensures ok ==> fds == old(fds) + TargetMap(old(fds), sources)
    {
      ghost var base := fds;
      var parked := new nat[6](_ => 0);
      ok := Park(sources, parked);
      if !ok { return; }
      ok := MoveToTargets(parked, base, sources);
      if !ok { return; }
      CloseParked(parked, base, sources);
    }

    /** Park every source on a scratch descriptor above every target. */
    method Park(sources: seq<nat>, parked: array<nat>) returns (ok: bool)
      requires |sources| == 6 && parked.Length == 6
      requires forall i | 0 <= i < 6 :: sources[i] in fds
      modifies this`faults, this`fds, parked
      ensures old(Calm()) ==> Calm() && ok
      ensures ok ==> ParkedCopies(old(fds), fds, sources, parked[..])
    {
      ghost var base := fds;
      var i := 0;
      while i < 6
        invariant 0 <= i <= 6
        invariant ParkedCopies(base, fds, sources[..i], parked[..i])
        invariant old(Calm()) ==> Calm()
      {
        ghost var before := fds;
        var got := DupFd(sources[i], SCRATCH_FLOOR);
        if got.None? {
          return false;
        }
        parked[i] := got.value;
        assert parked[..i + 1] == parked[..i] + [got.value] && sources[..i + 1] == sources[..i] + [sources[i]];
        ParkStep(base, before, sources[..i], parked[..i], sources[i], got.value);
        i := i + 1;
      }
      assert sources[..6] == sources && parked[..6] == parked[..];
      ok := true;
    }

    method MoveToTargets(parked: array<nat>, ghost base: map<nat, Desc>, ghost sources: seq<nat>) returns (ok: bool)
      requires |sources| == 6 && parked.Length == 6
      requires ParkedCopies(base, fds, sources, parked[..])
      modifies this`faults, this`fds
      ensures old(Calm()) ==> Calm() && ok
      ensures ok ==> fds == old(fds) + TargetMap(base, sources)
    {
      ghost var full := fds;
      var i := 0;
      while i < 6
        invariant 0 <= i <= 6
        invariant fds == full + PartialTargets(base, sources, i)
        invariant old(Calm()) ==> Calm()
      {
        assert parked[..][i] == parked[i];
        assert parked[i] in full && full[parked[i]] == Desc(base[sources[i]].file, false);
        assert parked[i] !in PartialTargets(base, sources, i);
        ok := Dup2(parked[i], Target(i));
        if !ok { return; }
        assert fds == full + PartialTargets(base, sources, i + 1);
        i := i + 1;
      }
      ok := true;
    }

    method CloseParked(parked: array<nat>, ghost base: map<nat, Desc>, ghost sources: seq<nat>)
      requires |sources| == 6 && parked.Length == 6
      requires exists full :: ParkedCopies(base, full, sources, parked[..]) && fds == full + TargetMap(base, sources)
      modifies this`fds
      ensures fds == base + TargetMap(base, sources)
    {
      ghost var full :| ParkedCopies(base, full, sources, parked[..]) && fds == full + TargetMap(base, sources);
      var i := 0;
      while i < 6
        invariant 0 <= i <= 6
        invariant fds == full + TargetMap(base, sources) - ParkedSet(parked[..i])
      {
        ParkedGrows(parked[..], i);
        assert parked[..][..i] == parked[..i] && parked[..][..i + 1] == parked[..i + 1];
        Close(parked[i]);
        i := i + 1;
      }
      assert parked[..6] == parked[..];
      forall fd | fd in ParkedSet(parked[..]) ensures fd >= SCRATCH_FLOOR {
        var k :| 0 <= k < 6 && parked[..][k] == fd;
      }
      assert full - ParkedSet(parked[..]) == base;
    }

    method ClearNonblock() returns (ok: bool)
      requires {0, 1, 3, 10, 11} <= fds.Keys
      modifies this`faults, this`nonblock
      ensures old(Calm()) ==> Calm() && ok
      ensures ok ==> nonblock == old(nonblock) - FilesOf(fds, [0, 1, 3, 10, 11])
    {
      var pipes: seq<nat> := [0, 1, 3, 10, 11];
      var i := 0;
      while i < 5
        invariant 0 <= i <= 5
        invariant nonblock == old(nonblock) - FilesOf(fds, pipes[..i])
        invariant old(Calm()) ==> Calm()
      {
        assert pipes[i] in {0, 1, 3, 10, 11};
        ok := SetBlocking(pipes[i]);
        if !ok { return; }
        FilesGrow(fds, pipes, i);
        i := i + 1;
      }
      assert pipes[..5] == pipes;
      ok := true;
    }

    /** The explicit FD_CLOEXEC sweep finds nothing left to clear. */
    method SweepCloexec(ghost base: map<nat, Desc>, ghost sources: seq<nat>) returns (ok: bool)
      requires |sources| == 6 && forall i | 0 <= i < 6 :: sources[i] in base
      requires fds == base + TargetMap(base, sources)
      modifies this`faults, this`fds
      ensures old(Calm()) ==> ok
      ensures ok ==> fds == old(fds)
    {
      TargetEntries(base, sources);
      var swept: seq<nat> := [7, 8, 9, 3, 10, 11];
      var i := 0;
      while i < 6
        invariant 0 <= i <= 6 && fds == old(fds)
        invariant old(Calm()) ==> Calm()
      {
        assert swept[i] in TargetMap(base, sources);
        assert !fds[swept[i]].cloexec by { EntriesKept(base, sources, swept[i]); }
        ok := ClearCloexec(swept[i]);
        if !ok { return; }
        assert fds == old(fds);
        i := i + 1;
      }
      ok := true;
    }
  }

  /** Same entry, or no entry, under `fd`. */
  ghost predicate Same(a: map<nat, Desc>, b: map<nat, Desc>, fd: nat) {
    (fd in a <==> fd in b) && (fd in a ==> a[fd] == b[fd])
  }

  /** `full` is `base` plus one close-on-exec-free copy of every source, each
      under a descriptor of its own that was free and lies above every target. */
  ghost predicate ParkedCopies(base: map<nat, Desc>, full: map<nat, Desc>, sources: seq<nat>, parked: seq<nat>) {
    && |parked| == |sources|
    && (forall i | 0 <= i < |sources| :: sources[i] in base)
    && (forall i | 0 <= i < |parked| :: parked[i] >= SCRATCH_FLOOR && parked[i] !in base
                                         && parked[i] in full && full[parked[i]] == Desc(base[sources[i]].file, false))
    && full - ParkedSet(parked) == base
    && full.Keys == base.Keys + ParkedSet(parked)
  }

  ghost function ParkedSet(parked: seq<nat>): set<nat> {
    set i | 0 <= i < |parked| :: parked[i]
  }

  lemma FilesGrow(fds: map<nat, Desc>, list: seq<nat>, i: nat)
    requires i < |list| && list[i] in fds
    ensures FilesOf(fds, list[..i + 1]) == FilesOf(fds, list[..i]) + {fds[list[i]].file}
  {
    var next := list[..i + 1];
    assert next[i] == list[i];
    forall x | x in FilesOf(fds, list[..i]) ensures x in FilesOf(fds, next) {
      var k :| 0 <= k < i && list[..i][k] in fds && fds[list[..i][k]].file == x;
      assert next[k] == list[..i][k];
    }
  }

  lemma EntriesKept(base: map<nat, Desc>, sources: seq<nat>, fd: nat)
    requires |sources| == 6 && forall i | 0 <= i < 6 :: sources[i] in base
    requires fd in TargetMap(base, sources)
    ensures !TargetMap(base, sources)[fd].cloexec
  {
    TargetEntries(base, sources);
    assert Target(0) == 3 && Target(1) == 7 && Target(2) == 8 && Target(3) == 9 && Target(4) == 10 && Target(5) == 11;
  }

  lemma ParkedGrows(parked: seq<nat>, i: nat)
    requires i < |parked|
    ensures ParkedSet(parked[..i + 1]) == ParkedSet(parked[..i]) + {parked[i]}
  {
    assert parked[..i + 1] == parked[..i] + [parked[i]];
    ParkedAppend(parked[..i], parked[i]);
  }

  lemma ParkedAppend(parked: seq<nat>, p: nat)
    ensures ParkedSet(parked + [p]) == ParkedSet(parked) + {p}
  {
    assert (parked + [p])[|parked|] == p;
    forall x | x in ParkedSet(parked) ensures x in ParkedSet(parked + [p]) {
      var i :| 0 <= i < |parked| && parked[i] == x;
      assert (parked + [p])[i] == x;
    }
  }

  lemma ParkStep(base: map<nat, Desc>, full: map<nat, Desc>, sources: seq<nat>, parked: seq<nat>, s: nat, p: nat)
    requires s in base && ParkedCopies(base, full, sources, parked) && p >= SCRATCH_FLOOR && p !in full
    ensures s in full && ParkedCopies(base, full[p := Desc(full[s].file, false)], sources + [s], parked + [p])
  {
    ParkedAppend(parked, p);
    assert (full - ParkedSet(parked))[s] == full[s];
    var next := full[p := Desc(full[s].file, false)];
    assert next - ParkedSet(parked + [p]) == full - ParkedSet(parked);
    var sources', parked' := sources + [s], parked + [p];
    forall i | 0 <= i < |parked'|
      ensures parked'[i] >= SCRATCH_FLOOR && parked'[i] !in base
              && parked'[i] in next && next[parked'[i]] == Desc(base[sources'[i]].file, false)
    {
      if i < |parked| {
        assert parked'[i] == parked[i] && sources'[i] == sources[i];
      }
    }
  }

  /** What the first `n` targets are to name. */
  ghost function PartialTargets(base: map<nat, Desc>, sources: seq<nat>, n: nat): (m: map<nat, Desc>)
    requires n <= |sources| <= 6 && forall i | 0 <= i < |sources| :: sources[i] in base
    ensures forall fd | fd in m :: fd < SCRATCH_FLOOR
  {
    if n == 0 then map[]
    else PartialTargets(base, sources, n - 1)[Target(n - 1) := Desc(base[sources[n - 1]].file, false)]
  }

  ghost function TargetMap(base: map<nat, Desc>, sources: seq<nat>): map<nat, Desc>
    requires |sources| == 6 && forall i | 0 <= i < 6 :: sources[i] in base
  {
    PartialTargets(base, sources, 6)
  }

  /** The relocation as a parallel move: every target names its source's old
      file, kept over exec, and every other descriptor is as it was. */
  ghost predicate Moved(was: map<nat, Desc>, now: map<nat, Desc>, stdin: nat, stdout: nat, sources: seq<nat>)
    requires |sources| == 6 && stdin in was && stdout in was && forall i | 0 <= i < 6 :: sources[i] in was
  {
    && 0 in now && now[0] == Desc(was[stdin].file, false)
    && 1 in now && now[1] == Desc(was[stdout].file, false)
    && (forall i | 0 <= i < 6 :: Target(i) in now && now[Target(i)] == Desc(was[sources[i]].file, false))
    && (forall fd: nat | fd > 1 && fd !in {3, 7, 8, 9, 10, 11} :: Same(was, now, fd))
  }

  ghost function FilesOf(fds: map<nat, Desc>, list: seq<nat>): set<nat> {
    set i | 0 <= i < |list| && list[i] in fds :: fds[list[i]].file
  }

  /** The files of the child's pipe ends. */
  ghost function PipeFiles(was: map<nat, Desc>, stdin: nat, stdout: nat, sources: seq<nat>): set<nat>
    requires |sources| == 6 && stdin in was && stdout in was && forall i | 0 <= i < 6 :: sources[i] in was
  {
    {was[stdin].file, was[stdout].file, was[sources[0]].file, was[sources[4]].file, was[sources[5]].file}
  }

  /** With 0 and 1 in place, adding the six targets completes the move; the
      descriptors whose flags are cleared are the child's pipe ends. */
  lemma MovedExactly(was: map<nat, Desc>, base: map<nat, Desc>, now: map<nat, Desc>, stdin: nat, stdout: nat,
                     sources: seq<nat>)
    requires stdin in was && stdout in was
    requires |sources| == 6 && forall i | 0 <= i < 6 :: sources[i] >= 3 && sources[i] in was
    requires base == was[0 := Desc(was[stdin].file, false)][1 := Desc(was[stdout].file, false)]
    requires now == base + TargetMap(base, sources)
    ensures Moved(was, now, stdin, stdout, sources)
    ensures FilesOf(now, [0, 1, 3, 10, 11]) == PipeFiles(was, stdin, stdout, sources)
  {
    TargetEntries(base, sources);
    forall fd: nat | fd > 1 && fd !in {3, 7, 8, 9, 10, 11} ensures Same(was, now, fd) {
      assert fd !in TargetMap(base, sources);
    }
    var list: seq<nat> := [0, 1, 3, 10, 11];
    assert Target(0) == 3 && Target(4) == 10 && Target(5) == 11;
    assert list[0] == 0 && list[1] == 1 && list[2] == 3 && list[3] == 10 && list[4] == 11;
  }

  lemma MovedHasPipes(was: map<nat, Desc>, now: map<nat, Desc>, stdin: nat, stdout: nat, sources: seq<nat>)
    requires |sources| == 6 && stdin in was && stdout in was && forall i | 0 <= i < 6 :: sources[i] in was
    requires Moved(was, now, stdin, stdout, sources)
    ensures {0, 1, 3, 10, 11} <= now.Keys
  {
    assert Target(0) == 3 && Target(4) == 10 && Target(5) == 11;
  }

  lemma TargetEntries(base: map<nat, Desc>, sources: seq<nat>)
    requires |sources| == 6 && forall i | 0 <= i < 6 :: sources[i] in base
    ensures TargetMap(base, sources).Keys == {3, 7, 8, 9, 10, 11}
    ensures forall i | 0 <= i < 6 :: Target(i) in TargetMap(base, sources)
                                     && TargetMap(base, sources)[Target(i)] == Desc(base[sources[i]].file, false)
  {
    var m1 := PartialTargets(base, sources, 1);
    var m2 := PartialTargets(base, sources, 2);
    var m3 := PartialTargets(base, sources, 3);
    var m4 := PartialTargets(base, sources, 4);
    var m5 := PartialTargets(base, sources, 5);
    var m6 := PartialTargets(base, sources, 6);
    assert PartialTargets(base, sources, 0) == map[];
    assert m1 == PartialTargets(base, sources, 0)[3 := m1[3]];
    assert m2 == m1[7 := m2[7]] && m3 == m2[8 := m3[8]] && m4 == m3[9 := m4[9]];
    assert m5 == m4[10 := m5[10]] && m6 == m5[11 := m6[11]];
  }

  /** What survives exec. */
  ghost function Survivors(fds: map<nat, Desc>): set<nat> {
    set fd | fd in fds && !fds[fd].cloexec
  }

  /** When everything above stderr is close-on-exec, bash starts with exactly
      the documented descriptors. */
  lemma ExecSees(was: map<nat, Desc>, now: map<nat, Desc>, stdin: nat, stdout: nat, sources: seq<nat>)
    requires |sources| == 6 && stdin in was && stdout in was && forall i | 0 <= i < 6 :: sources[i] in was
    requires Moved(was, now, stdin, stdout, sources)
    requires 2 in was && !was[2].cloexec && forall fd | fd in was && fd > 2 :: was[fd].cloexec
    ensures Survivors(now) == {0, 1, 2, 3, 7, 8, 9, 10, 11}
  {
    assert Target(0) == 3 && Target(1) == 7 && Target(2) == 8 && Target(3) == 9 && Target(4) == 10 && Target(5) == 11;
    assert Same(was, now, 2);
    forall fd | fd in now && fd > 2 && fd !in {3, 7, 8, 9, 10, 11} ensures now[fd].cloexec {
      assert Same(was, now, fd);
    }
  }
}
