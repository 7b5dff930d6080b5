/** serve's supervisor loop: signals, the timeout with its TERM-to-KILL
    escalation, the ways the loop ends, and the final report. */
module Supervisor {
  import opened Prelude
  import FC = FrameCodec

  const TIMEOUT_EXIT_CODE: int := 124
  const TERM_GRACE: nat := 5000

  datatype Status = Code(code: int) | Killed(signal: nat) | Unknown

  /** Exit code of a wait status: the code itself, or 128 plus the signal. */
  function StatusCode(s: Status): int {
    match s case Code(c) => c case Killed(n) => 128 + n case Unknown => 255
  }

  datatype Ctrl = Signal(s: FC.Signal) | Closed | Bad

  /** What the select finds ready; a wait that fails carries no status. */
  datatype Ready = Control(c: Option<Ctrl>) | ChildExit(status: Option<Status>) | Timer | WriterDead(sent: bool)

  datatype Tick = Tick(now: nat, ready: Ready)

  /** Why a signal goes to the child's process group. */
  datatype Why = Forwarded | Deadline | NoClock | Escalation | MakeUp | TransportLost | BadFrame | WriterGone

  datatype Act = Kill(at: nat, sig: FC.Signal, why: Why) | SendExit(report: FC.ExitReport)

  datatype Leave = Exited(status: Status) | Lost(why: Why) | WaitFailed

  datatype Loop = Loop(
    term: Option<nat>,              // timeout deadline
    kill: Option<nat>,              // escalation deadline
    timedOut: bool,
    ctrlOpen: bool,
    deadDone: bool,
    log: seq<Act>)

  datatype Turned = On(st: Loop) | Off(st: Loop, leave: Leave)

  /** `Instant::checked_add` on a clock that ends at `horizon`. */
  function CheckedAdd(t: nat, d: nat, horizon: nat): Option<nat> {
    if t + d <= horizon then Some(t + d) else None
  }

  function Begin(started: nat, timeoutMs: Option<nat>, horizon: nat): Loop {
    var term := if timeoutMs.Some? && timeoutMs.value > 0 then CheckedAdd(started, timeoutMs.value, horizon) else None;
    Loop(term, None, false, true, false, [])
  }

  /** The deadline the select sleeps on. */
  function Armed(st: Loop): Option<nat> {
    if st.kill.Some? then st.kill else st.term
  }

  function Logged(st: Loop, a: Act): Loop {
    st.(log := st.log + [a])
  }

  /** The timeout branch. */
  function TimeUp(st: Loop, now: nat, horizon: nat): Loop {
    if st.kill.None? then
      var st := Logged(st.(timedOut := true, term := None), Kill(now, FC.Term, Deadline));
      var at := CheckedAdd(now, TERM_GRACE, horizon);
      if at.Some? then st.(kill := at) else Logged(st, Kill(now, FC.Kill, NoClock))
    else Logged(st.(timedOut := true, kill := None), Kill(now, FC.Kill, Escalation))
  }

  /** One turn of the loop. A branch whose guard is off is not taken. */
  function Turn(st: Loop, tick: Tick, horizon: nat): Turned {
    var now := tick.now;
    match tick.ready
    case Control(c) =>
      if !st.ctrlOpen then On(st)
      else if c.None? then On(st.(ctrlOpen := false))
      else (match c.value
            case Signal(s) => On(Logged(st, Kill(now, s, Forwarded)))
            case Closed => Off(Logged(st, Kill(now, FC.Kill, TransportLost)), Lost(TransportLost))
            case Bad => Off(Logged(st, Kill(now, FC.Kill, BadFrame)), Lost(BadFrame)))
    case ChildExit(status) => Off(st, if status.Some? then Exited(status.value) else WaitFailed)
    case Timer => if Armed(st).Some? && now >= Armed(st).value then On(TimeUp(st, now, horizon)) else On(st)
    case WriterDead(sent) =>
      if st.deadDone then On(st)
      else if sent then Off(Logged(st.(deadDone := true), Kill(now, FC.Kill, WriterGone)), Lost(WriterGone))
      else On(st.(deadDone := true))
  }

  function Turns(st: Loop, script: seq<Tick>, horizon: nat): Turned
    decreases |script|
  {
    if script == [] then On(st)
    else match Turn(st, script[0], horizon)
      case On(next) => Turns(next, script[1..], horizon)
      case Off(last, leave) => Off(last, leave)
  }

  /** The end of a run that left by child exit: the KILL an early exit skipped,
      and the report. */
  function Wrap(st: Loop, now: nat, status: Status, cwd: Option<string>): Loop {
    var st := if st.kill.Some? then Logged(st, Kill(now, FC.Kill, MakeUp)) else st;
    var code := if st.timedOut then TIMEOUT_EXIT_CODE else StatusCode(status);
    Logged(st, SendExit(FC.ExitReport(code, cwd, None, st.timedOut)))
  }

  lemma OneTurn(st: Loop, script: seq<Tick>, i: nat, horizon: nat)
    requires i < |script|
    ensures Turns(st, script[i..], horizon)
         == match Turn(st, script[i], horizon)
            case On(next) => Turns(next, script[i + 1..], horizon)
            case Off(last, leave) => Off(last, leave)
  {
    assert script[i..][1..] == script[i + 1..];
  }

  // -- the loop itself --------------------------------------------------------

  /** The armed deadline has passed: TERM and the KILL it schedules, or that
      KILL. */
  method Fire(now: nat, horizon: nat, term: Option<nat>, kill: Option<nat>, log: seq<Act>, ghost st: Loop)
    returns (newTerm: Option<nat>, newKill: Option<nat>, newLog: seq<Act>)
    requires term == st.term && kill == st.kill && log == st.log
    ensures Loop(newTerm, newKill, true, st.ctrlOpen, st.deadDone, newLog) == TimeUp(st, now, horizon)
  {
    newTerm, newKill, newLog := term, kill, log;
    if kill.None? {
      newLog := newLog + [Kill(now, FC.Term, Deadline)];
      newTerm := None;
      if now + TERM_GRACE <= horizon {
        newKill := Some(now + TERM_GRACE);
      } else {
        newLog := newLog + [Kill(now, FC.Kill, NoClock)];
      }
    } else {
      newLog := newLog + [Kill(now, FC.Kill, Escalation)];
      newKill := None;
    }
  }

  /** execute: the select loop over any script of ready branches, then the
      make-up KILL and the report. `left` is None when the script ends first. */
  method Execute(started: nat, timeoutMs: Option<nat>, horizon: nat, script: seq<Tick>, exitTime: nat,
                 cwd: Option<string>)
    returns (left: Option<Leave>, log: seq<Act>)
    ensures match Turns(Begin(started, timeoutMs, horizon), script, horizon)
            case On(st) => left == None && log == st.log
            case Off(st, leave) =>
              left == Some(leave)
              && log == if leave.Exited? then Wrap(st, exitTime, leave.status, cwd).log else st.log
  {
    var term: Option<nat> := None;
    if timeoutMs.Some? && timeoutMs.value > 0 && started + timeoutMs.value <= horizon {
      term := Some(started + timeoutMs.value);
    }
    var kill: Option<nat> := None;
    var timedOut, ctrlOpen, deadDone := false, true, false;
    log := [];
    ghost var all := Turns(Begin(started, timeoutMs, horizon), script, horizon);
    var i := 0;
    assert script[0..] == script;
    while i < |script|
      invariant 0 <= i <= |script|
      invariant Turns(Loop(term, kill, timedOut, ctrlOpen, deadDone, log), script[i..], horizon) == all
    {
      var now := script[i].now;
      OneTurn(Loop(term, kill, timedOut, ctrlOpen, deadDone, log), script, i, horizon);
      match script[i].ready {
        case Control(c) =>
          if ctrlOpen {
            match c {
              case None => ctrlOpen := false;
              case Some(Signal(s)) => log := log + [Kill(now, s, Forwarded)];
              case Some(Closed) =>
                return Some(Lost(TransportLost)), log + [Kill(now, FC.Kill, TransportLost)];
              case Some(Bad) =>
                return Some(Lost(BadFrame)), log + [Kill(now, FC.Kill, BadFrame)];
            }
          }
        case ChildExit(status) =>
          if status.None? {
            return Some(WaitFailed), log;
          }
          if kill.Some? {
            log := log + [Kill(exitTime, FC.Kill, MakeUp)];
          }
          var code := if timedOut then TIMEOUT_EXIT_CODE else StatusCode(status.value);
          log := log + [SendExit(FC.ExitReport(code, cwd, None, timedOut))];
          return Some(Exited(status.value)), log;
        case Timer =>
          var at := if kill.Some? then kill else term;
          if at.Some? && now >= at.value {
            ghost var st := Loop(term, kill, timedOut, ctrlOpen, deadDone, log);
            term, kill, log := Fire(now, horizon, term, kill, log, st);
            timedOut := true;
          }
        case WriterDead(sent) =>
          if !deadDone {
            deadDone := true;
            if sent {
              return Some(Lost(WriterGone)), log + [Kill(now, FC.Kill, WriterGone)];
            }
          }
      }
      i := i + 1;
    }
    left := None;
  }

  // -- what a log shows -------------------------------------------------------

  predicate OfTimeout(a: Act) {
    a.Kill? && (a.why.Deadline? || a.why.NoClock? || a.why.Escalation? || a.why.MakeUp?)
  }

  /** The signals a timeout caused, in order. */
  function Family(log: seq<Act>): seq<Act> {
    if log == [] then []
    else Family(log[..|log| - 1]) + (if OfTimeout(log[|log| - 1]) then [log[|log| - 1]] else [])
  }

  /** The forwarded signals, in order. */
  function ForwardedIn(log: seq<Act>): seq<FC.Signal> {
    if log == [] then []
    else
      var last := log[|log| - 1];
      ForwardedIn(log[..|log| - 1]) + (if last.Kill? && last.why.Forwarded? then [last.sig] else [])
  }

  /** The signals a script delivers while the control channel is open. */
  function SignalsIn(script: seq<Tick>, open: bool): seq<FC.Signal> {
    if script == [] || !open then []
    else
      var r := script[0].ready;
      if r.Control? && r.c.Some? && r.c.value.Signal? then [r.c.value.s] + SignalsIn(script[1..], true)
      else SignalsIn(script[1..], !(r.Control? && r.c.None?))
  }

  lemma LoggedReads(log: seq<Act>, a: Act)
    ensures Family(log + [a]) == Family(log) + (if OfTimeout(a) then [a] else [])
    ensures ForwardedIn(log + [a]) == ForwardedIn(log) + (if a.Kill? && a.why.Forwarded? then [a.sig] else [])
  {
    assert (log + [a])[..|log|] == log;
  }

  ghost predicate NoExit(log: seq<Act>) {
    forall k | 0 <= k < |log| :: log[k].Kill?
  }

  /** One TERM at a deadline, not before it. */
  predicate IsTerm(a: Act, deadline: nat) {
    a.Kill? && a.sig.Term? && a.why.Deadline? && a.at >= deadline
  }

  /** One KILL: the scheduled one no earlier than the grace allows, the others
      only when the clock cannot hold the grace or the leader is gone. */
  predicate IsKill(a: Act, term: Act, horizon: nat)
    requires term.Kill?
  {
    a.Kill? && a.sig.Kill?
    && ((a.why.Escalation? && a.at >= term.at + TERM_GRACE)
        || (a.why.NoClock? && term.at + TERM_GRACE > horizon)
        || a.why.MakeUp?)
  }

  /** The timeout so far, with what it has sent: nothing, TERM with KILL
      scheduled, or both. The two deadlines are never armed together. */
  ghost predicate Stage(term: Option<nat>, kill: Option<nat>, timedOut: bool, f: seq<Act>, deadline: nat,
                        horizon: nat) {
    && !(term.Some? && kill.Some?)
    && (term.Some? ==> term.value == deadline)
    && (!timedOut ==> kill.None? && f == [])
    && (timedOut ==> term.None? && |f| > 0 && IsTerm(f[0], deadline))
    && (kill.Some? ==> timedOut && |f| == 1 && kill.value == f[0].at + TERM_GRACE)
    && (timedOut && kill.None? ==> |f| == 2 && IsKill(f[1], f[0], horizon))
  }

  ghost predicate LoopInv(st: Loop, deadline: nat, horizon: nat) {
    NoExit(st.log) && Stage(st.term, st.kill, st.timedOut, Family(st.log), deadline, horizon)
  }

  lemma TurnKeepsInv(st: Loop, tick: Tick, deadline: nat, horizon: nat)
    requires LoopInv(st, deadline, horizon)
    ensures Turn(st, tick, horizon).On? ==> LoopInv(Turn(st, tick, horizon).st, deadline, horizon)
  {
    match tick.ready {
      case Control(c) => ControlKeepsInv(st, tick.now, c, deadline, horizon);
      case Timer => TimerKeepsInv(st, tick.now, deadline, horizon);
      case WriterDead(sent) => FlagsKeepInv(st, st.(deadDone := true), deadline, horizon);
      case ChildExit(_) =>
    }
  }

  /** The timeout does not depend on the two flags. */
  lemma FlagsKeepInv(st: Loop, next: Loop, deadline: nat, horizon: nat)
    requires LoopInv(st, deadline, horizon)
    requires next == st.(ctrlOpen := next.ctrlOpen, deadDone := next.deadDone)
    ensures LoopInv(next, deadline, horizon)
  {
  }

  lemma ControlKeepsInv(st: Loop, now: nat, c: Option<Ctrl>, deadline: nat, horizon: nat)
    requires LoopInv(st, deadline, horizon)
    ensures var t := Turn(st, Tick(now, Control(c)), horizon); t.On? ==> LoopInv(t.st, deadline, horizon)
  {
    FlagsKeepInv(st, st.(ctrlOpen := false), deadline, horizon);
    if c.Some? && c.value.Signal? {
      ForwardKeepsInv(st, Kill(now, c.value.s, Forwarded), deadline, horizon);
    }
  }

  lemma TimerKeepsInv(st: Loop, now: nat, deadline: nat, horizon: nat)
    requires LoopInv(st, deadline, horizon)
    ensures LoopInv(Turn(st, Tick(now, Timer), horizon).st, deadline, horizon)
  {
    if Armed(st).Some? && now >= Armed(st).value {
      if st.kill.None? {
        TermKeepsInv(st, now, deadline, horizon);
      } else {
        KillKeepsInv(st, now, deadline, horizon);
      }
    }
  }

  lemma ForwardKeepsInv(st: Loop, a: Act, deadline: nat, horizon: nat)
    requires LoopInv(st, deadline, horizon) && a.Kill? && !OfTimeout(a)
    ensures LoopInv(Logged(st, a), deadline, horizon)
  {
    LoggedReads(st.log, a);
    assert Family(Logged(st, a).log) == Family(st.log);
  }

  lemma TimeUpFirst(st: Loop, now: nat, horizon: nat)
    requires st.kill.None?
    ensures TimeUp(st, now, horizon)
         == if now + TERM_GRACE <= horizon
            then Loop(None, Some(now + TERM_GRACE), true, st.ctrlOpen, st.deadDone,
                      st.log + [Kill(now, FC.Term, Deadline)])
            else Loop(None, None, true, st.ctrlOpen, st.deadDone,
                      st.log + [Kill(now, FC.Term, Deadline)] + [Kill(now, FC.Kill, NoClock)])
  {
  }

  lemma FamilyOfTwo(log: seq<Act>, term: Act, kill: Act)
    requires Family(log) == [] && OfTimeout(term) && OfTimeout(kill)
    ensures Family(log + [term]) == [term] && Family(log + [term] + [kill]) == [term, kill]
    ensures NoExit(log) ==> NoExit(log + [term]) && NoExit(log + [term] + [kill])
  {
    LoggedReads(log, term);
    LoggedReads(log + [term], kill);
  }

  lemma TermKeepsInv(st: Loop, now: nat, deadline: nat, horizon: nat)
    requires LoopInv(st, deadline, horizon) && st.kill.None? && st.term.Some? && now >= st.term.value
    ensures LoopInv(TimeUp(st, now, horizon), deadline, horizon)
  {
    TimeUpFirst(st, now, horizon);
    FamilyOfTwo(st.log, Kill(now, FC.Term, Deadline), Kill(now, FC.Kill, NoClock));
    assert NoExit(TimeUp(st, now, horizon).log);
  }

  lemma KillKeepsInv(st: Loop, now: nat, deadline: nat, horizon: nat)
    requires LoopInv(st, deadline, horizon) && st.kill.Some? && now >= st.kill.value
    ensures LoopInv(TimeUp(st, now, horizon), deadline, horizon)
  {
    var kill := Kill(now, FC.Kill, Escalation);
    LoggedReads(st.log, kill);
    assert Family(st.log + [kill]) == Family(st.log) + [kill];
  }

  /** Every loop state any script reaches. */
  lemma {:induction false} TurnsKeepInv(st: Loop, script: seq<Tick>, deadline: nat, horizon: nat)
    requires LoopInv(st, deadline, horizon)
    ensures match Turns(st, script, horizon)
            case On(last) => LoopInv(last, deadline, horizon)
            case Off(last, leave) => LeftInv(last, leave, deadline, horizon)
    decreases |script|
  {
    if script != [] {
      TurnKeepsInv(st, script[0], deadline, horizon);
      match Turn(st, script[0], horizon) {
        case On(next) => TurnsKeepInv(next, script[1..], deadline, horizon);
        case Off(last, leave) => LeavesWithInv(st, script[0], deadline, horizon);
      }
    }
  }

  ghost predicate EndsInKill(a: Act, why: Why) {
    a.Kill? && a.sig.Kill? && a.why == why && (why.TransportLost? || why.BadFrame? || why.WriterGone?)
  }

  /** The state a run leaves in: a run given up on has sent KILL last, on top
      of whatever the timeout had sent. */
  ghost predicate LeftInv(last: Loop, leave: Leave, deadline: nat, horizon: nat) {
    match leave
    case Lost(why) =>
      && last.log != [] && EndsInKill(last.log[|last.log| - 1], why) && NoExit(last.log)
      && Stage(last.term, last.kill, last.timedOut, Family(last.log[..|last.log| - 1]), deadline, horizon)
    case _ => LoopInv(last, deadline, horizon)
  }

  lemma LeavesAs(st: Loop, tick: Tick, horizon: nat)
    requires Turn(st, tick, horizon).Off?
    ensures var t := Turn(st, tick, horizon);
            if t.leave.Lost?
            then t.st == Logged(st.(deadDone := t.st.deadDone), Kill(tick.now, FC.Kill, t.leave.why))
                 && EndsInKill(Kill(tick.now, FC.Kill, t.leave.why), t.leave.why)
            else t.st == st
  {
  }

  lemma GivenUp(st: Loop, a: Act, why: Why, deadline: nat, horizon: nat)
    requires LoopInv(st, deadline, horizon) && EndsInKill(a, why)
    ensures LeftInv(Logged(st, a), Lost(why), deadline, horizon)
  {
    assert (st.log + [a])[..|st.log|] == st.log;
  }

  lemma LeavesWithInv(st: Loop, tick: Tick, deadline: nat, horizon: nat)
    requires LoopInv(st, deadline, horizon) && Turn(st, tick, horizon).Off?
    ensures LeftInv(Turn(st, tick, horizon).st, Turn(st, tick, horizon).leave, deadline, horizon)
  {
    var t := Turn(st, tick, horizon);
    LeavesAs(st, tick, horizon);
    if t.leave.Lost? {
      GivenUp(st.(deadDone := t.st.deadDone), Kill(tick.now, FC.Kill, t.leave.why), t.leave.why, deadline, horizon);
    }
  }

  // -- the theorems -----------------------------------------------------------

  /** A run that leaves by child exit sends exactly one Exit frame, last. If it
      timed out, the group got exactly one TERM, no earlier than the deadline,
      and behind it exactly one KILL, both before the Exit frame; otherwise
      the timeout sent nothing. The report says 124 exactly when the run timed
      out or the child's own code is 124. */
  lemma ExitedRun(started: nat, timeoutMs: Option<nat>, horizon: nat, script: seq<Tick>, exitTime: nat,
                  cwd: Option<string>)
    requires Turns(Begin(started, timeoutMs, horizon), script, horizon).Off?
    requires Turns(Begin(started, timeoutMs, horizon), script, horizon).leave.Exited?
    ensures var t := Turns(Begin(started, timeoutMs, horizon), script, horizon);
            var deadline := started + (if timeoutMs.Some? then timeoutMs.value else 0);
            var log := Wrap(t.st, exitTime, t.leave.status, cwd).log;
            var report := log[|log| - 1].report;
            && log[|log| - 1].SendExit? && NoExit(log[..|log| - 1])
            && report.timedOut == t.st.timedOut && report.cwd == cwd
            && report.error == None
            && report.code == (if report.timedOut then 124
                               else match t.leave.status
                                    case Code(c) => c
                                    case Killed(n) => 128 + n
                                    case Unknown => 255)
            && (if report.timedOut
                then |Family(log)| == 2 && IsTerm(Family(log)[0], deadline)
                     && IsKill(Family(log)[1], Family(log)[0], horizon)
                else Family(log) == [])
  {
    var t := Turns(Begin(started, timeoutMs, horizon), script, horizon);
    var deadline := started + (if timeoutMs.Some? then timeoutMs.value else 0);
    TurnsKeepInv(Begin(started, timeoutMs, horizon), script, deadline, horizon);
    WrapReads(t.st, exitTime, t.leave.status, cwd, deadline, horizon);
  }

  lemma WrapReads(st: Loop, exitTime: nat, status: Status, cwd: Option<string>, deadline: nat, horizon: nat)
    requires LoopInv(st, deadline, horizon)
    ensures var log := Wrap(st, exitTime, status, cwd).log;
            && log != [] && log[|log| - 1].SendExit? && NoExit(log[..|log| - 1])
            && (st.timedOut ==> |Family(log)| == 2 && IsTerm(Family(log)[0], deadline)
                                && IsKill(Family(log)[1], Family(log)[0], horizon))
            && (!st.timedOut ==> Family(log) == [])
  {
    var mid := if st.kill.Some? then Logged(st, Kill(exitTime, FC.Kill, MakeUp)) else st;
    var log := Wrap(st, exitTime, status, cwd).log;
    LoggedReads(st.log, Kill(exitTime, FC.Kill, MakeUp));
    LoggedReads(mid.log, log[|log| - 1]);
    assert log[..|log| - 1] == mid.log;
  }

  /** A run given up on (transport lost, bad frame, writer gone) ends with a
      KILL to the group and sends no Exit frame; whatever TERM the timeout had
      sent is therefore never the last word. */
  lemma LostRun(started: nat, timeoutMs: Option<nat>, horizon: nat, script: seq<Tick>)
    requires Turns(Begin(started, timeoutMs, horizon), script, horizon).Off?
    requires Turns(Begin(started, timeoutMs, horizon), script, horizon).leave.Lost?
    ensures var log := Turns(Begin(started, timeoutMs, horizon), script, horizon).st.log;
            && NoExit(log) && log != [] && log[|log| - 1].sig.Kill?
            && |Family(log)| <= 2
            && (|Family(log)| > 0 ==>
                  IsTerm(Family(log)[0], started + (if timeoutMs.Some? then timeoutMs.value else 0)))
  {
    var t := Turns(Begin(started, timeoutMs, horizon), script, horizon);
    var deadline := started + (if timeoutMs.Some? then timeoutMs.value else 0);
    TurnsKeepInv(Begin(started, timeoutMs, horizon), script, deadline, horizon);
    var front, last := t.st.log[..|t.st.log| - 1], t.st.log[|t.st.log| - 1];
    LastOff(t.st.log);
    LoggedReads(front, last);
  }

  // -- which runs leave a TERM without its KILL --------------------------------

  predicate TimeoutTerm(a: Act) {
    a.Kill? && a.sig.Term? && a.why.Deadline?
  }

  /** A KILL of serve's own, as opposed to one forwarded for the client. */
  predicate OwnKill(a: Act) {
    a.Kill? && a.sig.Kill? && !a.why.Forwarded?
  }

  ghost predicate TermWithoutKill(log: seq<Act>) {
    exists i | 0 <= i < |log| :: TimeoutTerm(log[i]) && forall j | i < j < |log| :: !OwnKill(log[j])
  }

  lemma TermWithoutKillGrows(log: seq<Act>, a: Act)
    ensures TermWithoutKill(log + [a]) <==> TimeoutTerm(a) || (TermWithoutKill(log) && !OwnKill(a))
  {
    var all := log + [a];
    assert all[|log|] == a;
    if TermWithoutKill(log) && !OwnKill(a) {
      var i :| 0 <= i < |log| && TimeoutTerm(log[i]) && forall j | i < j < |log| :: !OwnKill(log[j]);
      assert TimeoutTerm(all[i]) && forall j | i < j < |all| :: !OwnKill(all[j]);
    }
    if TermWithoutKill(all) && !TimeoutTerm(a) {
      var i :| 0 <= i < |all| && TimeoutTerm(all[i]) && forall j | i < j < |all| :: !OwnKill(all[j]);
      assert TimeoutTerm(log[i]);
      assert forall j | i < j < |log| :: all[j] == log[j];
    }
  }

  /** Inside the loop a TERM lacks its KILL exactly while the KILL is armed. */
  ghost predicate ArmedRight(st: Loop) {
    TermWithoutKill(st.log) <==> st.kill.Some?
  }

  lemma TimerStaysRight(st: Loop, now: nat, horizon: nat)
    requires ArmedRight(st)
    ensures ArmedRight(TimeUp(st, now, horizon))
  {
    var term, kill := Kill(now, FC.Term, Deadline), Kill(now, FC.Kill, NoClock);
    if st.kill.Some? {
      TermWithoutKillGrows(st.log, Kill(now, FC.Kill, Escalation));
    } else {
      TermWithoutKillGrows(st.log, term);
      TermWithoutKillGrows(st.log + [term], kill);
    }
  }

  lemma TurnStaysRight(st: Loop, tick: Tick, horizon: nat)
    requires ArmedRight(st)
    ensures var t := Turn(st, tick, horizon); t.On? ==> ArmedRight(t.st)
    ensures var t := Turn(st, tick, horizon); t.Off? && t.leave.Lost? ==> !TermWithoutKill(t.st.log)
    ensures var t := Turn(st, tick, horizon); t.Off? && !t.leave.Lost? ==> t.st == st
  {
    match tick.ready {
      case Control(Some(Signal(s))) => TermWithoutKillGrows(st.log, Kill(tick.now, s, Forwarded));
      case Control(Some(Closed)) => TermWithoutKillGrows(st.log, Kill(tick.now, FC.Kill, TransportLost));
      case Control(Some(Bad)) => TermWithoutKillGrows(st.log, Kill(tick.now, FC.Kill, BadFrame));
      case Control(None) =>
      case Timer => TimerStaysRight(st, tick.now, horizon);
      case WriterDead(_) => TermWithoutKillGrows(st.log, Kill(tick.now, FC.Kill, WriterGone));
      case ChildExit(_) =>
    }
  }

  lemma {:induction false} TurnsStayRight(st: Loop, script: seq<Tick>, horizon: nat)
    requires ArmedRight(st)
    ensures var t := Turns(st, script, horizon);
            if t.Off? && t.leave.Lost? then !TermWithoutKill(t.st.log) else ArmedRight(t.st)
    decreases |script|
  {
    if script != [] {
      TurnStaysRight(st, script[0], horizon);
      if Turn(st, script[0], horizon).On? {
        TurnsStayRight(Turn(st, script[0], horizon).st, script[1..], horizon);
      }
    }
  }

  /** All that a run which has left sends. */
  function FinalLog(t: Turned, exitTime: nat, cwd: Option<string>): seq<Act>
    requires t.Off?
  {
    if t.leave.Exited? then Wrap(t.st, exitTime, t.leave.status, cwd).log else t.st.log
  }

  lemma WrapLeavesNone(st: Loop, exitTime: nat, status: Status, cwd: Option<string>)
    requires ArmedRight(st)
    ensures !TermWithoutKill(Wrap(st, exitTime, status, cwd).log)
  {
    var mid := if st.kill.Some? then Logged(st, Kill(exitTime, FC.Kill, MakeUp)) else st;
    var log := Wrap(st, exitTime, status, cwd).log;
    TermWithoutKillGrows(st.log, Kill(exitTime, FC.Kill, MakeUp));
    TermWithoutKillGrows(mid.log, log[|log| - 1]);
  }

  // -- when the loop leaves, and when it times out ----------------------------

  /** The control channel is still read at tick `k`. */
  ghost predicate CtrlRead(script: seq<Tick>, k: nat, open: bool)
    requires k <= |script|
  {
    open && forall j | 0 <= j < k :: script[j].ready != Control(None)
  }

  /** The writer's end has not been seen before tick `k`. */
  ghost predicate WriterWatched(script: seq<Tick>, k: nat, dead: bool)
    requires k <= |script|
  {
    !dead && forall j | 0 <= j < k :: !script[j].ready.WriterDead?
  }

  /** Why the loop leaves at tick `k`, if it does: told from the script alone. */
  ghost function LeavesAt(script: seq<Tick>, k: nat, open: bool, dead: bool): Option<Leave>
    requires k < |script|
  {
    match script[k].ready
    case ChildExit(Some(status)) => Some(Exited(status))
    case ChildExit(None) => Some(WaitFailed)
    case Control(Some(Closed)) => if CtrlRead(script, k, open) then Some(Lost(TransportLost)) else None
    case Control(Some(Bad)) => if CtrlRead(script, k, open) then Some(Lost(BadFrame)) else None
    case WriterDead(true) => if WriterWatched(script, k, dead) then Some(Lost(WriterGone)) else None
    case _ => None
  }

  lemma {:induction false} ReadBehind(tick: Tick, rest: seq<Tick>, k: nat, open: bool)
    requires k <= |rest|
    ensures CtrlRead([tick] + rest, k + 1, open) <==> CtrlRead(rest, k, open && tick.ready != Control(None))
  {
    var all := [tick] + rest;
    if k == 0 {
      assert all[0] == tick;
    } else {
      assert all[k] == rest[k - 1];
      ReadBehind(tick, rest, k - 1, open);
    }
  }

  lemma {:induction false} WatchedBehind(tick: Tick, rest: seq<Tick>, k: nat, dead: bool)
    requires k <= |rest|
    ensures WriterWatched([tick] + rest, k + 1, dead) <==> WriterWatched(rest, k, dead || tick.ready.WriterDead?)
  {
    var all := [tick] + rest;
    if k == 0 {
      assert all[0] == tick;
    } else {
      assert all[k] == rest[k - 1];
      WatchedBehind(tick, rest, k - 1, dead);
    }
  }

  lemma LeavesBehind(tick: Tick, rest: seq<Tick>, k: nat, open: bool, dead: bool)
    requires k < |rest|
    ensures LeavesAt([tick] + rest, k + 1, open, dead)
         == LeavesAt(rest, k, open && tick.ready != Control(None), dead || tick.ready.WriterDead?)
  {
    assert ([tick] + rest)[k + 1] == rest[k];
    ReadBehind(tick, rest, k, open);
    WatchedBehind(tick, rest, k, dead);
  }

  lemma OneTurnLeaves(st: Loop, script: seq<Tick>, horizon: nat)
    requires script != []
    ensures var t, l := Turn(st, script[0], horizon), LeavesAt(script, 0, st.ctrlOpen, st.deadDone);
            if t.Off? then l == Some(t.leave)
            else l == None && t.st.ctrlOpen == (st.ctrlOpen && script[0].ready != Control(None))
                 && t.st.deadDone == (st.deadDone || script[0].ready.WriterDead?)
  {
  }

  /** The loop leaves at the first tick that calls for it, for the reason that
      tick gives, and goes on exactly as long as none does: the child's exit, a
      failed wait, and, while the channel is read, a closed transport or a bad
      frame, or the first sign of a dead writer. */
  lemma {:induction false} LeavesExactly(st: Loop, script: seq<Tick>, horizon: nat)
    ensures var n, t := Stay(st, script, horizon), Turns(st, script, horizon);
            && (forall k | 0 <= k < n :: LeavesAt(script, k, st.ctrlOpen, st.deadDone) == None)
            && (if t.Off? then n < |script| && LeavesAt(script, n, st.ctrlOpen, st.deadDone) == Some(t.leave)
                else n == |script|)
    decreases |script|
  {
    if script != [] {
      OneTurnLeaves(st, script, horizon);
      var t := Turn(st, script[0], horizon);
      if t.On? {
        LeavesExactly(t.st, script[1..], horizon);
        assert script == [script[0]] + script[1..];
        forall k | 0 < k < |script|
          ensures LeavesAt(script, k, st.ctrlOpen, st.deadDone)
               == LeavesAt(script[1..], k - 1, t.st.ctrlOpen, t.st.deadDone)
        {
          LeavesBehind(script[0], script[1..], k - 1, st.ctrlOpen, st.deadDone);
        }
      }
    }
  }

  /** The run has timed out exactly when some timer turn taken reached the
      deadline. */
  lemma {:induction false} TimesOutExactly(st: Loop, script: seq<Tick>, horizon: nat)
    requires (st.kill.Some? ==> st.timedOut) && (st.timedOut ==> st.term.None?)
    ensures var taken := script[..Stay(st, script, horizon)];
            Turns(st, script, horizon).st.timedOut <==> st.timedOut || (st.term.Some? && Due(taken, st.term.value))
    decreases |script|
  {
    if script != [] && Turn(st, script[0], horizon).On? {
      var next := Turn(st, script[0], horizon).st;
      var rest := script[1..][..Stay(next, script[1..], horizon)];
      assert script[..Stay(st, script, horizon)] == [script[0]] + rest;
      TimesOutExactly(next, script[1..], horizon);
      if st.term.Some? {
        DueFront(script[0], rest, st.term.value);
      }
    }
  }

  /** In terms of the request: a timeout that the clock can hold, and a timer
      turn taken at or behind it. */
  lemma TimedOutMeans(started: nat, timeoutMs: Option<nat>, horizon: nat, script: seq<Tick>)
    ensures var st := Begin(started, timeoutMs, horizon);
            var taken := script[..Stay(st, script, horizon)];
            Turns(st, script, horizon).st.timedOut <==>
              && timeoutMs.Some? && timeoutMs.value > 0 && started + timeoutMs.value <= horizon
              && Due(taken, started + timeoutMs.value)
  {
    TimesOutExactly(Begin(started, timeoutMs, horizon), script, horizon);
  }

  /** How many turns the loop takes before the one it leaves at. */
  function Stay(st: Loop, script: seq<Tick>, horizon: nat): (n: nat)
    ensures n <= |script|
    decreases |script|
  {
    if script == [] || Turn(st, script[0], horizon).Off? then 0
    else 1 + Stay(Turn(st, script[0], horizon).st, script[1..], horizon)
  }

  /** Some timer turn reaches the deadline. */
  ghost predicate Due(ticks: seq<Tick>, deadline: nat) {
    exists j | 0 <= j < |ticks| :: ticks[j].ready.Timer? && ticks[j].now >= deadline
  }

  /** Timer turn `i` is the first to reach the deadline; the clock can hold the
      grace behind it, and no later timer turn reaches the end of that grace. */
  ghost predicate SentTermOnly(ticks: seq<Tick>, i: nat, deadline: nat, horizon: nat) {
    && i < |ticks| && ticks[i].ready.Timer? && ticks[i].now >= deadline && !Due(ticks[..i], deadline)
    && ticks[i].now + TERM_GRACE <= horizon && !Due(ticks[i + 1..], ticks[i].now + TERM_GRACE)
  }

  ghost predicate StopsAtTerm(ticks: seq<Tick>, deadline: nat, horizon: nat) {
    exists i: nat :: SentTermOnly(ticks, i, deadline, horizon)
  }

  lemma DueFront(tick: Tick, later: seq<Tick>, deadline: nat)
    ensures Due([tick] + later, deadline) <==> (tick.ready.Timer? && tick.now >= deadline) || Due(later, deadline)
  {
    var all := [tick] + later;
    if j :| 0 <= j < |later| && later[j].ready.Timer? && later[j].now >= deadline {
      assert all[j + 1] == later[j];
    }
    if tick.ready.Timer? && tick.now >= deadline {
      assert all[0] == tick;
    }
  }

  lemma SentShift(tick: Tick, later: seq<Tick>, i: nat, deadline: nat, horizon: nat)
    requires !(tick.ready.Timer? && tick.now >= deadline)
    ensures SentTermOnly([tick] + later, i + 1, deadline, horizon) <==> SentTermOnly(later, i, deadline, horizon)
  {
    if i < |later| {
      var all := [tick] + later;
      assert all[i + 1] == later[i] && all[..i + 1] == [tick] + later[..i] && all[i + 2..] == later[i + 1..];
      DueFront(tick, later[..i], deadline);
    }
  }

  lemma StopsFront(tick: Tick, later: seq<Tick>, deadline: nat, horizon: nat)
    ensures StopsAtTerm([tick] + later, deadline, horizon)
        <==> if tick.ready.Timer? && tick.now >= deadline
             then tick.now + TERM_GRACE <= horizon && !Due(later, tick.now + TERM_GRACE)
             else StopsAtTerm(later, deadline, horizon)
  {
    var all := [tick] + later;
    assert all[..0] == [] && all[1..] == later && all[0] == tick;
    if tick.ready.Timer? && tick.now >= deadline {
      assert SentTermOnly(all, 0, deadline, horizon)
        <==> tick.now + TERM_GRACE <= horizon && !Due(later, tick.now + TERM_GRACE);
      forall i: nat | i > 0 ensures !SentTermOnly(all, i, deadline, horizon) {
        if i < |all| { assert all[..i][0] == tick; }
      }
    } else {
      if i: nat :| SentTermOnly(later, i, deadline, horizon) {
        SentShift(tick, later, i, deadline, horizon);
      }
      if i: nat :| SentTermOnly(all, i, deadline, horizon) {
        assert i > 0;
        SentShift(tick, later, i - 1, deadline, horizon);
      }
    }
  }

  /** The KILL is armed when the loop leaves, in terms of the turns it took. */
  ghost predicate ArmedAtEnd(st: Loop, taken: seq<Tick>, horizon: nat) {
    if st.kill.Some? then !Due(taken, st.kill.value)
    else st.term.Some? && StopsAtTerm(taken, st.term.value, horizon)
  }

  lemma ArmedFront(st: Loop, tick: Tick, later: seq<Tick>, horizon: nat)
    requires st.term.None? || st.kill.None?
    requires Turn(st, tick, horizon).On?
    ensures ArmedAtEnd(st, [tick] + later, horizon) <==> ArmedAtEnd(Turn(st, tick, horizon).st, later, horizon)
    ensures Turn(st, tick, horizon).st.term.None? || Turn(st, tick, horizon).st.kill.None?
  {
    if st.kill.Some? {
      DueFront(tick, later, st.kill.value);
    } else if st.term.Some? {
      StopsFront(tick, later, st.term.value, horizon);
    }
  }

  lemma {:induction false} ArmedByTurns(st: Loop, script: seq<Tick>, horizon: nat)
    requires st.term.None? || st.kill.None?
    requires var t := Turns(st, script, horizon); t.On? || !t.leave.Lost?
    ensures Turns(st, script, horizon).st.kill.Some?
        <==> ArmedAtEnd(st, script[..Stay(st, script, horizon)], horizon)
    decreases |script|
  {
    var taken := script[..Stay(st, script, horizon)];
    if taken == [] {
      NothingTaken(st, script, horizon);
    } else {
      var next := Turn(st, script[0], horizon).st;
      ArmedFront(st, script[0], taken[1..], horizon);
      assert taken == [script[0]] + taken[1..];
      assert taken[1..] == script[1..][..Stay(next, script[1..], horizon)];
      ArmedByTurns(next, script[1..], horizon);
    }
  }

  lemma NothingTaken(st: Loop, script: seq<Tick>, horizon: nat)
    requires Stay(st, script, horizon) == 0
    requires var t := Turns(st, script, horizon); t.On? || !t.leave.Lost?
    ensures Turns(st, script, horizon).st == st && (ArmedAtEnd(st, [], horizon) <==> st.kill.Some?)
  {
    if script != [] {
      LeavesAs(st, script[0], horizon);
    }
  }

  /** The turns taken sent TERM and did not reach the end of its grace. */
  ghost predicate KillPending(started: nat, timeoutMs: Option<nat>, horizon: nat, taken: seq<Tick>) {
    && timeoutMs.Some? && timeoutMs.value > 0 && started + timeoutMs.value <= horizon
    && StopsAtTerm(taken, started + timeoutMs.value, horizon)
  }

  /** Over every way out: the timeout's TERM is left without a KILL exactly when
      waiting for the child fails while the KILL is armed, that is, after a
      timer turn that sent TERM and before one that reached the grace. */
  lemma TermWithoutKillExactly(started: nat, timeoutMs: Option<nat>, horizon: nat, script: seq<Tick>,
                               exitTime: nat, cwd: Option<string>)
    requires Turns(Begin(started, timeoutMs, horizon), script, horizon).Off?
    ensures var t := Turns(Begin(started, timeoutMs, horizon), script, horizon);
            TermWithoutKill(FinalLog(t, exitTime, cwd)) <==> t.leave.WaitFailed? && t.st.kill.Some?
    ensures var st := Begin(started, timeoutMs, horizon);
            var t := Turns(st, script, horizon);
            t.leave.WaitFailed? ==>
              t.st.kill.Some? == KillPending(started, timeoutMs, horizon, script[..Stay(st, script, horizon)])
  {
    var st := Begin(started, timeoutMs, horizon);
    var t := Turns(st, script, horizon);
    assert ArmedRight(st);
    TurnsStayRight(st, script, horizon);
    if t.leave.Exited? {
      WrapLeavesNone(t.st, exitTime, t.leave.status, cwd);
    }
    if t.leave.WaitFailed? {
      ArmedByTurns(st, script, horizon);
    }
  }

  /** The shortest such run: the timeout fires, then the wait fails. */
  lemma FailedWaitSkipsKill(started: nat, timeoutMs: nat, horizon: nat)
    requires timeoutMs > 0 && started + timeoutMs + TERM_GRACE <= horizon
    ensures var d := started + timeoutMs;
            var script := [Tick(d, Timer), Tick(d, ChildExit(None))];
            var t := Turns(Begin(started, Some(timeoutMs), horizon), script, horizon);
            t.Off? && t.leave == WaitFailed && t.st.log == [Kill(d, FC.Term, Deadline)] && t.st.kill.Some?
  {
    var d := started + timeoutMs;
    var script := [Tick(d, Timer), Tick(d, ChildExit(None))];
    assert script[1..] == [Tick(d, ChildExit(None))];
    var st := Begin(started, Some(timeoutMs), horizon);
    assert Turn(st, script[0], horizon) == On(TimeUp(st, d, horizon));
    assert [] + [Kill(d, FC.Term, Deadline)] == [Kill(d, FC.Term, Deadline)];
  }

  /** Every signal that reaches the loop is forwarded once, in order, and
      nothing else is, in every run and over every way out: those of the turns
      taken before the one that leaves. */
  lemma {:induction false} SignalsForwarded(st: Loop, script: seq<Tick>, horizon: nat)
    ensures ForwardedIn(Turns(st, script, horizon).st.log)
         == ForwardedIn(st.log) + SignalsIn(script[..Stay(st, script, horizon)], st.ctrlOpen)
    decreases |script|
  {
    if script != [] && Turn(st, script[0], horizon).On? {
      var next := Turn(st, script[0], horizon).st;
      var rest := script[1..][..Stay(next, script[1..], horizon)];
      assert script[..Stay(st, script, horizon)] == [script[0]] + rest;
      ForwardedOne(st, script[0], horizon);
      SignalsForwarded(next, script[1..], horizon);
      SignalsBehind(st, script[0], rest, horizon);
    } else if script != [] {
      LeavingLogs(st, script[0], horizon);
      var leave := Turn(st, script[0], horizon).leave;
      if leave.Lost? { LoggedReads(st.log, Kill(script[0].now, FC.Kill, leave.why)); }
    }
  }

  lemma SignalsBehind(st: Loop, tick: Tick, rest: seq<Tick>, horizon: nat)
    requires Turn(st, tick, horizon).On?
    ensures var next := Turn(st, tick, horizon).st;
            ForwardedIn(next.log) + SignalsIn(rest, next.ctrlOpen)
              == ForwardedIn(st.log) + SignalsIn([tick] + rest, st.ctrlOpen)
  {
    var r, next := tick.ready, Turn(st, tick, horizon).st;
    ForwardedOne(st, tick, horizon);
    assert ([tick] + rest)[1..] == rest;
    if st.ctrlOpen && r.Control? && r.c.Some? && r.c.value.Signal? {
      Assoc(ForwardedIn(st.log), [r.c.value.s], SignalsIn(rest, true));
    } else if !st.ctrlOpen {
      ClosedForwardsNothing(rest);
    }
  }

  /** What a turn that leaves adds to the log. */
  lemma LeavingLogs(st: Loop, tick: Tick, horizon: nat)
    requires Turn(st, tick, horizon).Off?
    ensures var t := Turn(st, tick, horizon);
            t.st.log == if t.leave.Lost? then st.log + [Kill(tick.now, FC.Kill, t.leave.why)] else st.log
    ensures Turn(st, tick, horizon).leave.Lost? ==> !Turn(st, tick, horizon).leave.why.Forwarded?
  {
  }

  lemma ClosedForwardsNothing(script: seq<Tick>)
    ensures SignalsIn(script, false) == []
  {
  }

  lemma ForwardedOne(st: Loop, tick: Tick, horizon: nat)
    requires Turn(st, tick, horizon).On?
    ensures var next, r := Turn(st, tick, horizon).st, tick.ready;
            && ForwardedIn(next.log) == ForwardedIn(st.log)
                 + (if st.ctrlOpen && r.Control? && r.c.Some? && r.c.value.Signal? then [r.c.value.s] else [])
            && next.ctrlOpen == (st.ctrlOpen && !(r.Control? && r.c.None?))
  {
    var now := tick.now;
    match tick.ready {
      case Control(c) =>
        if c.Some? && c.value.Signal? { LoggedReads(st.log, Kill(now, c.value.s, Forwarded)); }
      case Timer => TimeUpForwardsNothing(st, now, horizon);
      case _ =>
    }
  }

  lemma TimeUpForwardsNothing(st: Loop, now: nat, horizon: nat)
    ensures ForwardedIn(TimeUp(st, now, horizon).log) == ForwardedIn(st.log)
    ensures TimeUp(st, now, horizon).ctrlOpen == st.ctrlOpen
  {
    var term := Kill(now, FC.Term, Deadline);
    if st.kill.Some? {
      LoggedReads(st.log, Kill(now, FC.Kill, Escalation));
    } else {
      LoggedReads(st.log, term);
      if now + TERM_GRACE > horizon {
        LoggedReads(st.log + [term], Kill(now, FC.Kill, NoClock));
        assert TimeUp(st, now, horizon).log == st.log + [term] + [Kill(now, FC.Kill, NoClock)];
      } else {
        assert TimeUp(st, now, horizon).log == st.log + [term];
      }
    }
  }
}
