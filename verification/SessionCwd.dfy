/** Session buckets of the daemon: executions of one (host, session) serialize
    on the bucket's lock, start where the last one reported, and report before
    their Exit frame leaves. */
module SessionCwd {
  import opened Prelude

  datatype Key = Key(host: string, session: string)

  /** How an execution ended: with a report, which may carry a new cwd, or
      without one. */
  datatype Outcome = Done(cwd: Option<string>) | Failed

  datatype Pc =
    | Begin
    | Queued(b: nat)                                // waiting for the session lock
    | Locked(b: nat)                                // lock held, start cwd not read
    | Running(b: nat)
    | Finished(b: nat, outcome: Outcome)            // before the cwd update
    | Updated(b: nat, outcome: Outcome)             // before the Exit frame
    | Leaving(b: nat)                               // Exit frame sent, lock not released
    | Gone

  datatype Task = Task(key: Key, explicit: Option<string>, pc: Pc)

  /** What happened, in order. */
  datatype Record =
    | Started(t: nat, key: Key, explicit: Option<string>, start: Option<string>)
    | Reported(t: nat, key: Key, cwd: string)
    | ExitSent(t: nat, key: Key, outcome: Outcome)

  datatype Sessions = Sessions(
    table: map<Key, nat>,
    cwd: map<nat, Option<string>>,
    holder: map<nat, nat>,
    tasks: map<nat, Task>,
    buckets: nat,
    history: seq<Record>)

  datatype Event =
    | Arrive(t: nat, key: Key, explicit: Option<string>)
    | FindBucket(t: nat)
    | Lock(t: nat)
    | Start(t: nat)
    | End(t: nat, outcome: Outcome)
    | Update(t: nat)
    | SendExit(t: nat)
    | Release(t: nat)

  const EMPTY := Sessions(map[], map[], map[], map[], 0, [])

  predicate Enabled(s: Sessions, e: Event) {
    match e
    case Arrive(t, _, _) => t !in s.tasks
    case FindBucket(t) => t in s.tasks && s.tasks[t].pc.Begin?
    case Lock(t) => t in s.tasks && s.tasks[t].pc.Queued? && s.tasks[t].pc.b !in s.holder
    case Start(t) => t in s.tasks && s.tasks[t].pc.Locked? && s.tasks[t].pc.b in s.cwd
    case End(t, _) => t in s.tasks && s.tasks[t].pc.Running?
    case Update(t) => t in s.tasks && s.tasks[t].pc.Finished?
    case SendExit(t) => t in s.tasks && s.tasks[t].pc.Updated?
    case Release(t) => t in s.tasks && s.tasks[t].pc.Leaving?
  }

  function At(s: Sessions, t: nat, pc: Pc): map<nat, Task>
    requires t in s.tasks
  {
    s.tasks[t := s.tasks[t].(pc := pc)]
  }

  function Next(s: Sessions, e: Event): Sessions
    requires Enabled(s, e)
  {
    match e
    case Arrive(t, key, explicit) => s.(tasks := s.tasks[t := Task(key, explicit, Begin)])
    case FindBucket(t) =>
      var key := s.tasks[t].key;
      if key in s.table then s.(tasks := At(s, t, Queued(s.table[key])))
      else s.(table := s.table[key := s.buckets], cwd := s.cwd[s.buckets := None],
              tasks := At(s, t, Queued(s.buckets)), buckets := s.buckets + 1)
    case Lock(t) =>
      var b := s.tasks[t].pc.b;
      s.(holder := s.holder[b := t], tasks := At(s, t, Locked(b)))
    case Start(t) =>
      var task := s.tasks[t];
      var start := if task.explicit.Some? then task.explicit else s.cwd[task.pc.b];
      s.(tasks := At(s, t, Running(task.pc.b)), history := s.history + [Started(t, task.key, task.explicit, start)])
    case End(t, outcome) => s.(tasks := At(s, t, Finished(s.tasks[t].pc.b, outcome)))
    case Update(t) =>
      var b, outcome := s.tasks[t].pc.b, s.tasks[t].pc.outcome;
      if outcome.Done? && outcome.cwd.Some? then
        s.(tasks := At(s, t, Updated(b, outcome)), cwd := s.cwd[b := outcome.cwd],
           history := s.history + [Reported(t, s.tasks[t].key, outcome.cwd.value)])
      else s.(tasks := At(s, t, Updated(b, outcome)))
    case SendExit(t) =>
      s.(tasks := At(s, t, Leaving(s.tasks[t].pc.b)),
         history := s.history + [ExitSent(t, s.tasks[t].key, s.tasks[t].pc.outcome)])
    case Release(t) => s.(tasks := At(s, t, Gone), holder := s.holder - {s.tasks[t].pc.b})
  }

  function Run(s: Sessions, events: seq<Event>): Option<Sessions>
    decreases |events|
  {
    if events == [] then Some(s)
    else if Enabled(s, events[0]) then Run(Next(s, events[0]), events[1..])
    else None
  }

  // -- reading a history ------------------------------------------------------

  /** The cwd last reported for a session, None before the first report. */
  function LastReport(history: seq<Record>, key: Key): Option<string> {
    if history == [] then None
    else
      var last := history[|history| - 1];
      if last.Reported? && last.key == key then Some(last.cwd) else LastReport(history[..|history| - 1], key)
  }

  /** The task whose execution of the session is under way. */
  function Open(history: seq<Record>, key: Key): Option<nat> {
    if history == [] then None
    else
      var last := history[|history| - 1];
      if last.key != key then Open(history[..|history| - 1], key)
      else if last.Started? then Some(last.t)
      else if last.ExitSent? then None
      else Open(history[..|history| - 1], key)
  }

  /** One record judged against everything before it: an execution starts only
      when none of its session is under way, and then at its explicit cwd or
      the last one reported; reports and exits come from the execution under
      way, and an exit that carried a cwd had reported it. */
  ghost predicate RecordOk(before: seq<Record>, r: Record) {
    match r
    case Started(_, key, explicit, start) =>
      Open(before, key) == None && start == if explicit.Some? then explicit else LastReport(before, key)
    case Reported(t, key, _) => Open(before, key) == Some(t)
    case ExitSent(t, key, outcome) =>
      Open(before, key) == Some(t)
      && (outcome.Done? && outcome.cwd.Some? ==> LastReport(before, key) == outcome.cwd)
  }

  ghost predicate HistoryOk(history: seq<Record>) {
    forall i | 0 <= i < |history| :: RecordOk(history[..i], history[i])
  }

  lemma HistoryGrows(history: seq<Record>, r: Record)
    requires HistoryOk(history) && RecordOk(history, r)
    ensures HistoryOk(history + [r])
  {
    var h := history + [r];
    forall i | 0 <= i < |h| ensures RecordOk(h[..i], h[i]) {
      assert h[..i] == history[..i];
      assert i == |history| ==> history[..i] == history;
    }
  }

  lemma ReadAppended(history: seq<Record>, r: Record, key: Key)
    ensures LastReport(history + [r], key)
         == if r.Reported? && r.key == key then Some(r.cwd) else LastReport(history, key)
    ensures Open(history + [r], key)
         == if r.key != key || r.Reported? then Open(history, key) else if r.Started? then Some(r.t) else None
  {
    assert (history + [r])[..|history|] == history;
  }

  /** What a step does to the readings of the history. */
  function OpenAfter(s: Sessions, e: Event, key: Key): Option<nat>
    requires Enabled(s, e)
  {
    if e.Start? && s.tasks[e.t].key == key then Some(e.t)
    else if e.SendExit? && s.tasks[e.t].key == key then None
    else Open(s.history, key)
  }

  function ReportAfter(s: Sessions, e: Event, key: Key): Option<string>
    requires Enabled(s, e)
  {
    if e.Update? && s.tasks[e.t].key == key && s.tasks[e.t].pc.outcome.Done? && s.tasks[e.t].pc.outcome.cwd.Some?
    then s.tasks[e.t].pc.outcome.cwd
    else LastReport(s.history, key)
  }

  lemma HistoryStep(s: Sessions, e: Event, key: Key)
    requires Enabled(s, e)
    ensures Open(Next(s, e).history, key) == OpenAfter(s, e, key)
    ensures LastReport(Next(s, e).history, key) == ReportAfter(s, e, key)
  {
    var n := Next(s, e);
    if |n.history| > |s.history| {
      ReadAppended(s.history, n.history[|s.history|], key);
    }
  }

  // -- the invariant ----------------------------------------------------------

  predicate Holds(pc: Pc) {
    !pc.Begin? && !pc.Queued? && !pc.Gone?
  }

  /** Between Start and the Exit frame. */
  predicate Underway(pc: Pc) {
    pc.Running? || pc.Finished? || pc.Updated?
  }

  ghost predicate TaskInv(s: Sessions, t: nat)
    requires t in s.tasks
  {
    var key, pc := s.tasks[t].key, s.tasks[t].pc;
    && (!pc.Begin? && !pc.Gone? ==> key in s.table && s.table[key] == pc.b)
    && (Holds(pc) ==> pc.b in s.holder && s.holder[pc.b] == t)
    && (Underway(pc) <==> Open(s.history, key) == Some(t))
    && (pc.Updated? && pc.outcome.Done? && pc.outcome.cwd.Some? ==> LastReport(s.history, key) == pc.outcome.cwd)
  }

  ghost predicate KeyInv(s: Sessions, key: Key) {
    && (Open(s.history, key).Some? ==> Open(s.history, key).value in s.tasks
                                       && s.tasks[Open(s.history, key).value].key == key)
    && (if key in s.table
        then s.table[key] < s.buckets && s.table[key] in s.cwd && s.cwd[s.table[key]] == LastReport(s.history, key)
        else LastReport(s.history, key) == None && Open(s.history, key) == None)
  }

  /** A held lock is held by a task between Lock and Release. */
  ghost predicate HeldInv(s: Sessions, b: nat)
    requires b in s.holder
  {
    var t := s.holder[b];
    t in s.tasks && Holds(s.tasks[t].pc) && s.tasks[t].pc.b == b
  }

  ghost predicate LocksInv(s: Sessions) {
    forall b | b in s.holder :: HeldInv(s, b)
  }

  ghost predicate Inv(s: Sessions) {
    && LocksInv(s)
    && (forall t | t in s.tasks :: TaskInv(s, t))
    && (forall key: Key :: KeyInv(s, key))
    && (forall k, l | k in s.table && l in s.table && s.table[k] == s.table[l] :: k == l)
    && HistoryOk(s.history)
  }

  lemma HistoryKept(s: Sessions, e: Event)
    requires Inv(s) && Enabled(s, e)
    ensures HistoryOk(Next(s, e).history)
  {
    if !e.Arrive? {
      assert TaskInv(s, e.t);
      assert KeyInv(s, s.tasks[e.t].key);
    }
    match e {
      case Start(t) =>
        NoneUnderway(s, t);
        HistoryGrows(s.history, Next(s, e).history[|s.history|]);
      case Update(t) =>
        if Next(s, e).history != s.history {
          HistoryGrows(s.history, Next(s, e).history[|s.history|]);
        }
      case SendExit(t) => HistoryGrows(s.history, Next(s, e).history[|s.history|]);
      case _ =>
    }
  }

  /** The session lock: while one task holds it, no other execution of the
      session is under way. */
  lemma NoneUnderway(s: Sessions, t: nat)
    requires Inv(s) && t in s.tasks && s.tasks[t].pc.Locked?
    ensures Open(s.history, s.tasks[t].key) == None
  {
    var key := s.tasks[t].key;
    assert TaskInv(s, t) && KeyInv(s, key);
    forall u | u in s.tasks && s.tasks[u].key == key ensures Open(s.history, key) != Some(u) {
      assert TaskInv(s, u);
    }
  }

  lemma OwnTaskStep(s: Sessions, e: Event, key: Key)
    requires Enabled(s, e) && !e.Arrive? && e.t in Next(s, e).tasks && key == s.tasks[e.t].key
    requires TaskInv(s, e.t) && KeyInv(s, key) && (e.Start? ==> Open(s.history, key) == None)
    ensures TaskInv(Next(s, e), e.t)
  {
    HistoryStep(s, e, key);
  }

  /** The task that takes the step. */
  lemma OwnTaskKept(s: Sessions, e: Event)
    requires Inv(s) && Enabled(s, e) && !e.Arrive? && e.t in Next(s, e).tasks
    ensures TaskInv(Next(s, e), e.t)
  {
    var key := s.tasks[e.t].key;
    assert TaskInv(s, e.t) && KeyInv(s, key);
    if e.Start? { NoneUnderway(s, e.t); }
    OwnTaskStep(s, e, key);
  }

  /** Every other task. */
  lemma OtherTaskKept(s: Sessions, e: Event, u: nat)
    requires Inv(s) && Enabled(s, e) && u in s.tasks && (e.Arrive? || u != e.t)
    ensures TaskInv(Next(s, e), u)
  {
    var key := s.tasks[u].key;
    assert TaskInv(s, u) && KeyInv(s, key);
    if !e.Arrive? {
      assert TaskInv(s, e.t);
      assert KeyInv(s, s.tasks[e.t].key);
    }
    if e.Start? { NoneUnderway(s, e.t); }
    HistoryStep(s, e, key);
  }

  lemma TaskKept(s: Sessions, e: Event, u: nat)
    requires Inv(s) && Enabled(s, e) && u in Next(s, e).tasks
    ensures TaskInv(Next(s, e), u)
  {
    if u !in s.tasks {
      Unknown(s, u, Next(s, e).tasks[u].key);
    } else if !e.Arrive? && u == e.t {
      OwnTaskKept(s, e);
    } else {
      OtherTaskKept(s, e, u);
    }
  }

  lemma Unknown(s: Sessions, u: nat, key: Key)
    requires Inv(s) && u !in s.tasks
    ensures Open(s.history, key) != Some(u)
  {
    assert KeyInv(s, key);
  }

  lemma KeyKept(s: Sessions, e: Event, key: Key)
    requires Inv(s) && Enabled(s, e)
    ensures KeyInv(Next(s, e), key)
  {
    assert KeyInv(s, key);
    if !e.Arrive? {
      assert TaskInv(s, e.t);
      assert KeyInv(s, s.tasks[e.t].key);
    }
    HistoryStep(s, e, key);
    if key in s.table && !e.Arrive? && s.tasks[e.t].key in s.table {
      assert s.table[key] == s.table[s.tasks[e.t].key] ==> key == s.tasks[e.t].key;
    }
  }

  lemma StepKeepsInv(s: Sessions, e: Event)
    requires Inv(s) && Enabled(s, e)
    ensures Inv(Next(s, e))
  {
    var n := Next(s, e);
    forall u | u in n.tasks ensures TaskInv(n, u) { TaskKept(s, e, u); }
    forall key: Key ensures KeyInv(n, key) { KeyKept(s, e, key); }
    HistoryKept(s, e);
    TableKept(s, e);
    LocksKept(s, e);
  }

  /** What a step does to the held locks: taking one, or giving it back. */
  lemma LocksKept(s: Sessions, e: Event)
    requires Inv(s) && Enabled(s, e)
    ensures LocksInv(Next(s, e))
  {
    forall b | b in Next(s, e).holder
      ensures HeldInv(Next(s, e), b)
    {
      HeldKept(s, e, b);
    }
  }

  lemma HeldKept(s: Sessions, e: Event, b: nat)
    requires Inv(s) && Enabled(s, e) && b in Next(s, e).holder
    ensures HeldInv(Next(s, e), b)
  {
    if !e.Arrive? {
      assert TaskInv(s, e.t);
    }
    if b in s.holder {
      assert HeldInv(s, b);
    }
  }

  lemma TableKept(s: Sessions, e: Event)
    requires Inv(s) && Enabled(s, e)
    ensures var n := Next(s, e); forall k, l | k in n.table && l in n.table && n.table[k] == n.table[l] :: k == l
  {
    forall k | k in s.table ensures s.table[k] < s.buckets { assert KeyInv(s, k); }
  }

  lemma {:induction false} RunKeepsInv(s: Sessions, events: seq<Event>)
    requires Inv(s)
    ensures Run(s, events).Some? ==> Inv(Run(s, events).value)
    decreases |events|
  {
    if events != [] && Enabled(s, events[0]) {
      StepKeepsInv(s, events[0]);
      RunKeepsInv(Next(s, events[0]), events[1..]);
    }
  }

  // -- what holds in every interleaving ---------------------------------------

  /** Every history any interleaving produces is in order: executions of one
      session never overlap, and each one without an explicit cwd starts at
      the cwd last reported before it. */
  lemma EveryHistory(events: seq<Event>)
    requires Run(EMPTY, events).Some?
    ensures HistoryOk(Run(EMPTY, events).value.history)
  {
    RunKeepsInv(EMPTY, events);
  }

  /** Once a client has seen an Exit frame that carried a cwd, an execution
      that starts later without an explicit cwd starts there, or at one
      reported after that frame. */
  lemma SeenCwdIsUsed(history: seq<Record>, j: nat, i: nat)
    requires HistoryOk(history) && j < i < |history|
    requires history[j].ExitSent? && history[j].outcome.Done? && history[j].outcome.cwd.Some?
    requires history[i].Started? && history[i].explicit == None && history[i].key == history[j].key
    ensures history[i].start == history[j].outcome.cwd
            || exists m | j < m < i :: ReportsStart(history[m], history[i])
  {
    assert RecordOk(history[..j], history[j]) && RecordOk(history[..i], history[i]);
    ReportBetween(history, j, i, history[j].key);
  }

  ghost predicate ReportsStart(r: Record, s: Record)
    requires s.Started?
  {
    r.Reported? && r.key == s.key && Some(r.cwd) == s.start
  }

  /** Between two points of a history the last report either stays or is one
      made in between. */
  lemma {:induction false} ReportBetween(history: seq<Record>, j: nat, i: nat, key: Key)
    requires j <= i <= |history|
    ensures LastReport(history[..i], key) == LastReport(history[..j], key)
            || exists m | j <= m < i :: history[m].Reported? && history[m].key == key
                                       && Some(history[m].cwd) == LastReport(history[..i], key)
    decreases i - j
  {
    if j < i {
      ReportBetween(history, j, i - 1, key);
      assert history[..i] == history[..i - 1] + [history[i - 1]];
      ReadAppended(history[..i - 1], history[i - 1], key);
    }
  }

  /** Two executions of one session are totally ordered: the first one's Exit
      frame was sent before the second one started. */
  lemma ExecutionsOrdered(history: seq<Record>, i: nat, j: nat)
    requires HistoryOk(history) && i < j < |history|
    requires history[i].Started? && history[j].Started? && history[i].key == history[j].key
    ensures exists m | i < m < j ::
              history[m].ExitSent? && history[m].key == history[i].key && history[m].t == history[i].t
  {
    assert RecordOk(history[..j], history[j]);
    ReadAppended(history[..i], history[i], history[i].key);
    assert history[..i + 1] == history[..i] + [history[i]];
    ClosesBetween(history, i + 1, j, history[i].key, history[i].t);
  }

  lemma {:induction false} ClosesBetween(history: seq<Record>, i: nat, j: nat, key: Key, t: nat)
    requires HistoryOk(history) && i <= j <= |history|
    requires Open(history[..i], key) == Some(t) && Open(history[..j], key) == None
    ensures exists m | i <= m < j :: history[m].ExitSent? && history[m].key == key && history[m].t == t
    decreases j - i
  {
    assert RecordOk(history[..i], history[i]);
    assert history[..i + 1] == history[..i] + [history[i]];
    ReadAppended(history[..i], history[i], key);
    if !(history[i].ExitSent? && history[i].key == key) {
      ClosesBetween(history, i + 1, j, key, t);
    }
  }

  /** What happens in one session never changes another session's bucket. */
  lemma OtherBucketsUntouched(events: seq<Event>, e: Event, key: Key)
    requires Run(EMPTY, events).Some? && Enabled(Run(EMPTY, events).value, e)
    requires var s := Run(EMPTY, events).value; key in s.table && !e.Arrive? && s.tasks[e.t].key != key
    ensures var s, n := Run(EMPTY, events).value, Next(Run(EMPTY, events).value, e);
            key in n.table && n.table[key] == s.table[key]
            && n.table[key] in n.cwd && s.table[key] in s.cwd && n.cwd[n.table[key]] == s.cwd[s.table[key]]
  {
    RunKeepsInv(EMPTY, events);
    var s := Run(EMPTY, events).value;
    assert KeyInv(s, key) && TaskInv(s, e.t);
  }

  // -- no lock is ever lost ---------------------------------------------------

  ghost predicate HoldsNone(s: Sessions, t: nat) {
    forall b | b in s.holder :: s.holder[b] != t
  }

  /** Another execution of the session is between Lock and Release. */
  ghost predicate Occupied(s: Sessions, t: nat, key: Key) {
    exists u :: u != t && u in s.tasks && s.tasks[u].key == key && Holds(s.tasks[u].pc)
  }

  /** The session's lock is held by an execution of that very session. */
  lemma HeldByOwnSession(s: Sessions, t: nat)
    requires Inv(s) && t in s.tasks && s.tasks[t].pc.Queued? && s.tasks[t].pc.b in s.holder
    ensures var u := s.holder[s.tasks[t].pc.b];
            && u != t && u in s.tasks && s.tasks[u].key == s.tasks[t].key
            && Holds(s.tasks[u].pc) && s.tasks[u].pc.b == s.tasks[t].pc.b
  {
    var b := s.tasks[t].pc.b;
    assert TaskInv(s, t) && HeldInv(s, b);
    assert TaskInv(s, s.holder[b]);
  }

  /** With no execution of its session at work a queued one can start. */
  lemma FreeSessionStarts(events: seq<Event>, t: nat)
    requires Run(EMPTY, events).Some?
    requires var s := Run(EMPTY, events).value; t in s.tasks && s.tasks[t].pc.Queued?
    ensures var s := Run(EMPTY, events).value; Enabled(s, Lock(t)) <==> !Occupied(s, t, s.tasks[t].key)
  {
    RunKeepsInv(EMPTY, events);
    var s := Run(EMPTY, events).value;
    if s.tasks[t].pc.b in s.holder {
      HeldByOwnSession(s, t);
    }
  }

  /** What the execution that holds a lock does next, up to giving it back. */
  function Rest(t: nat, pc: Pc, outcome: Outcome): seq<Event> {
    match pc
    case Locked(_) => [Start(t)] + ([End(t, outcome)] + ([Update(t)] + ([SendExit(t)] + [Release(t)])))
    case Running(_) => [End(t, outcome)] + ([Update(t)] + ([SendExit(t)] + [Release(t)]))
    case Finished(_, _) => [Update(t)] + ([SendExit(t)] + [Release(t)])
    case Updated(_, _) => [SendExit(t)] + [Release(t)]
    case Leaving(_) => [Release(t)]
    case _ => []
  }

  /** The execution has given the lock back, and no other task has moved. */
  ghost predicate GaveBack(s: Sessions, t: nat, r: Option<Sessions>)
    requires t in s.tasks && Holds(s.tasks[t].pc)
  {
    && r.Some? && r.value.holder == s.holder - {s.tasks[t].pc.b}
    && t in r.value.tasks && r.value.tasks[t].pc.Gone?
    && forall u | u in s.tasks && u != t :: u in r.value.tasks && r.value.tasks[u] == s.tasks[u]
  }

  /** The one event a task that holds a lock can take. */
  function NextOf(t: nat, pc: Pc, outcome: Outcome): Event
    requires Holds(pc)
  {
    match pc
    case Locked(_) => Start(t)
    case Running(_) => End(t, outcome)
    case Finished(_, _) => Update(t)
    case Updated(_, _) => SendExit(t)
    case Leaving(_) => Release(t)
  }

  lemma RestSteps(t: nat, pc: Pc, outcome: Outcome)
    requires Holds(pc)
    ensures var all := Rest(t, pc, outcome);
            |all| <= 5 && all != [] && all[0] == NextOf(t, pc, outcome) && (pc.Leaving? ==> all[1..] == [])
  {
  }

  /** One step nearer to the release, or the release. */
  lemma NextStep(s: Sessions, t: nat, outcome: Outcome)
    requires t in s.tasks && Holds(s.tasks[t].pc) && (s.tasks[t].pc.Locked? ==> s.tasks[t].pc.b in s.cwd)
    ensures var e := NextOf(t, s.tasks[t].pc, outcome);
            && Enabled(s, e) && t in Next(s, e).tasks
            && (forall u | u in s.tasks && u != t :: u in Next(s, e).tasks && Next(s, e).tasks[u] == s.tasks[u])
    ensures var n, pc := Next(s, NextOf(t, s.tasks[t].pc, outcome)), s.tasks[t].pc;
            if pc.Leaving? then n.holder == s.holder - {pc.b} && n.tasks[t].pc.Gone?
            else n.holder == s.holder && Holds(n.tasks[t].pc) && !n.tasks[t].pc.Locked? && n.tasks[t].pc.b == pc.b
                 && Rest(t, pc, outcome)[1..] == Rest(t, n.tasks[t].pc, outcome)
  {
  }

  lemma {:induction false} RestGivesBack(s: Sessions, t: nat, outcome: Outcome)
    requires t in s.tasks && Holds(s.tasks[t].pc) && (s.tasks[t].pc.Locked? ==> s.tasks[t].pc.b in s.cwd)
    ensures GaveBack(s, t, Run(s, Rest(t, s.tasks[t].pc, outcome)))
    decreases |Rest(t, s.tasks[t].pc, outcome)|
  {
    var pc := s.tasks[t].pc;
    RestSteps(t, pc, outcome);
    NextStep(s, t, outcome);
    if !pc.Leaving? {
      RestGivesBack(Next(s, NextOf(t, pc, outcome)), t, outcome);
    }
  }

  /** No execution waits in vain: in every run, a queued one can take the
      session's lock at once, or as soon as the one that holds it, of the same
      session, has taken its own next steps, at most five, however it ends. */
  lemma LockComes(events: seq<Event>, t: nat, outcome: Outcome)
    requires Run(EMPTY, events).Some?
    requires var s := Run(EMPTY, events).value; t in s.tasks && s.tasks[t].pc.Queued?
    ensures var s := Run(EMPTY, events).value;
            var b := s.tasks[t].pc.b;
            && (b !in s.holder ==> Enabled(s, Lock(t)))
            && (b in s.holder ==>
                  && s.holder[b] in s.tasks && s.tasks[s.holder[b]].key == s.tasks[t].key
                  && |Rest(s.holder[b], s.tasks[s.holder[b]].pc, outcome)| <= 5
                  && Run(s, Rest(s.holder[b], s.tasks[s.holder[b]].pc, outcome)).Some?
                  && Enabled(Run(s, Rest(s.holder[b], s.tasks[s.holder[b]].pc, outcome)).value, Lock(t)))
  {
    RunKeepsInv(EMPTY, events);
    var s := Run(EMPTY, events).value;
    if s.tasks[t].pc.b in s.holder {
      HeldByOwnSession(s, t);
      HolderGivesBack(s, s.holder[s.tasks[t].pc.b], outcome);
    }
  }

  lemma HolderGivesBack(s: Sessions, u: nat, outcome: Outcome)
    requires Inv(s) && u in s.tasks && Holds(s.tasks[u].pc)
    ensures |Rest(u, s.tasks[u].pc, outcome)| <= 5 && GaveBack(s, u, Run(s, Rest(u, s.tasks[u].pc, outcome)))
  {
    assert TaskInv(s, u) && KeyInv(s, s.tasks[u].key);
    RestSteps(u, s.tasks[u].pc, outcome);
    RestGivesBack(s, u, outcome);
  }

  lemma DoneHoldsNone(s: Sessions, t: nat)
    requires Inv(s) && t in s.tasks && !Holds(s.tasks[t].pc)
    ensures HoldsNone(s, t)
  {
    forall b | b in s.holder
      ensures s.holder[b] != t
    {
      assert HeldInv(s, b);
    }
  }

  /** The history went on with these records, and no others of task `t`. */
  ghost predicate Grew(was: seq<Record>, now: seq<Record>, records: seq<Record>, t: nat) {
    was + records <= now && forall k | |was| + |records| <= k < |now| :: now[k].t != t
  }

  lemma OthersGrow(s: Sessions, e: Event, was: seq<Record>, t: nat)
    requires Enabled(s, e) && e.t != t && Grew(was, s.history, [], t)
    ensures Grew(was, Next(s, e).history, [], t)
    ensures t in s.tasks ==> t in Next(s, e).tasks && Next(s, e).tasks[t] == s.tasks[t]
  {
  }

  /** What an ended execution reports before its Exit frame. */
  function Report(t: nat, key: Key, outcome: Outcome): seq<Record> {
    if outcome.Done? && outcome.cwd.Some? then [Reported(t, key, outcome.cwd.value)] else []
  }

  /** Behind position `from` lies one whole execution: it starts at its explicit
      cwd or the one last reported, reports a new cwd before it exits, and no
      other execution of its session starts in between. */
  ghost predicate Executed(history: seq<Record>, from: nat, t: nat, key: Key, explicit: Option<string>,
                           start: Option<string>, outcome: Outcome) {
    exists i, j | from <= i < j < |history| ::
      && history[i] == Started(t, key, explicit, start) && history[j] == ExitSent(t, key, outcome)
      && start == (if explicit.Some? then explicit else LastReport(history[..i], key))
      && (outcome.Done? && outcome.cwd.Some? ==> Reported(t, key, outcome.cwd.value) in history[i..j])
      && NoStart(history, i, j, key)
  }

  ghost predicate NoStart(history: seq<Record>, i: nat, j: nat, key: Key)
    requires j <= |history|
  {
    forall m | i < m < j :: !(history[m].Started? && history[m].key == key)
  }

  /** Task `t` does nothing but report between two positions. */
  ghost predicate OnlyReports(history: seq<Record>, i: nat, j: nat, t: nat)
    requires j <= |history|
  {
    forall k | i < k < j :: history[k].t != t || history[k].Reported?
  }

  lemma OneExecution(history: seq<Record>, i: nat, u: nat, j: nat, t: nat, key: Key, explicit: Option<string>,
                     start: Option<string>, outcome: Outcome)
    requires HistoryOk(history) && i < u <= j < |history| && OnlyReports(history, i, j, t)
    requires history[i] == Started(t, key, explicit, start) && history[j] == ExitSent(t, key, outcome)
    requires outcome.Done? && outcome.cwd.Some? ==> u < j && history[u] == Reported(t, key, outcome.cwd.value)
    ensures Executed(history, i, t, key, explicit, start, outcome)
  {
    assert RecordOk(history[..i], history[i]);
    forall m | i < m < j ensures !(history[m].Started? && history[m].key == key) {
      if history[m].Started? && history[m].key == key {
        ExecutionsOrdered(history, i, m);
      }
    }
    if outcome.Done? && outcome.cwd.Some? {
      assert history[i..j][u - i] == history[u];
    }
  }

  lemma WholeExecution(before: seq<Record>, started: seq<Record>, ran: seq<Record>, reported: seq<Record>,
                       history: seq<Record>, t: nat, key: Key, explicit: Option<string>, start: Option<string>,
                       outcome: Outcome, from: nat)
    requires HistoryOk(history) && from <= |before|
    requires Grew(before, started, [Started(t, key, explicit, start)], t) && Grew(started, ran, [], t)
    requires Grew(ran, reported, Report(t, key, outcome), t)
    requires Grew(reported, history, [ExitSent(t, key, outcome)], t)
    ensures Executed(history, from, t, key, explicit, start, outcome)
  {
    assert started <= ran <= reported <= history;
    assert history[|before|] == started[|before|];
    forall k | |before| < k < |reported| ensures history[k].t != t || history[k].Reported? {
      assert history[k] == reported[k];
      if k < |started| { assert reported[k] == started[k]; }
      else if k < |ran| { assert reported[k] == ran[k]; }
    }
    OneExecution(history, |before|, |ran|, |reported|, t, key, explicit, start, outcome);
  }

  // -- the session table, section by section ----------------------------------

  class Table {
    var table: map<Key, nat>
    var cwd: map<nat, Option<string>>
    var holder: map<nat, nat>
    var tasks: map<nat, Task>
    var buckets: nat
    var history: seq<Record>        // kept for the contracts only

    function View(): Sessions
      reads this
    {
      Sessions(table, cwd, holder, tasks, buckets, history)
    }

    constructor ()
      ensures View() == EMPTY
    {
      table, cwd, holder, tasks, buckets, history := map[], map[], map[], map[], 0, [];
    }

    method Begins(t: nat, key: Key, explicit: Option<string>)
      requires Enabled(View(), Arrive(t, key, explicit))
      modifies this
      ensures View() == Next(old(View()), Arrive(t, key, explicit))
    {
      tasks := tasks[t := Task(key, explicit, Pc.Begin)];
    }

    /** get_session: the bucket of the key, created on first use. */
    method GetSession(t: nat)
      requires Enabled(View(), FindBucket(t))
      modifies this
      ensures View() == Next(old(View()), FindBucket(t))
    {
      var key := tasks[t].key;
      if key !in table {
        table := table[key := buckets];
        cwd := cwd[buckets := None];
        buckets := buckets + 1;
      }
      tasks := tasks[t := tasks[t].(pc := Queued(table[key]))];
    }

    method AcquireLock(t: nat)
      requires Enabled(View(), Lock(t))
      modifies this
      ensures View() == Next(old(View()), Lock(t))
    {
      var b := tasks[t].pc.b;
      holder := holder[b := t];
      tasks := tasks[t := tasks[t].(pc := Locked(b))];
    }

    /** The starting cwd: the request's own, or the session's. */
    method ReadStart(t: nat) returns (start: Option<string>)
      requires Enabled(View(), Start(t))
      modifies this
      ensures View() == Next(old(View()), Start(t))
      ensures history == old(history) + [Started(t, tasks[t].key, tasks[t].explicit, start)]
    {
      start := tasks[t].explicit;
      if start.None? {
        start := cwd[tasks[t].pc.b];
      }
      history := history + [Started(t, tasks[t].key, tasks[t].explicit, start)];
      tasks := tasks[t := tasks[t].(pc := Running(tasks[t].pc.b))];
    }

    method ExecutionEnds(t: nat, outcome: Outcome)
      requires Enabled(View(), End(t, outcome))
      modifies this
      ensures View() == Next(old(View()), End(t, outcome))
    {
      tasks := tasks[t := tasks[t].(pc := Finished(tasks[t].pc.b, outcome))];
    }

    method UpdateCwd(t: nat)
      requires Enabled(View(), Update(t))
      modifies this
      ensures View() == Next(old(View()), Update(t))
    {
      var b, outcome := tasks[t].pc.b, tasks[t].pc.outcome;
      if outcome.Done? && outcome.cwd.Some? {
        cwd := cwd[b := outcome.cwd];
        history := history + [Reported(t, tasks[t].key, outcome.cwd.value)];
      }
      tasks := tasks[t := tasks[t].(pc := Updated(b, outcome))];
    }

    method SendReport(t: nat)
      requires Enabled(View(), SendExit(t))
      modifies this
      ensures View() == Next(old(View()), SendExit(t))
    {
      history := history + [ExitSent(t, tasks[t].key, tasks[t].pc.outcome)];
      tasks := tasks[t := tasks[t].(pc := Leaving(tasks[t].pc.b))];
    }

    method ReleaseLock(t: nat)
      requires Enabled(View(), Release(t))
      modifies this
      ensures View() == Next(old(View()), Release(t))
    {
      holder := holder - {tasks[t].pc.b};
      tasks := tasks[t := tasks[t].(pc := Gone)];
    }

    method Perform(e: Event)
      requires Enabled(View(), e)
      modifies this
      ensures View() == Next(old(View()), e)
    {
      match e {
        case Arrive(t, key, explicit) => Begins(t, key, explicit);
        case FindBucket(t) => GetSession(t);
        case Lock(t) => AcquireLock(t);
        case Start(t) => var _ := ReadStart(t);
        case End(t, outcome) => ExecutionEnds(t, outcome);
        case Update(t) => UpdateCwd(t);
        case SendExit(t) => SendReport(t);
        case Release(t) => ReleaseLock(t);
      }
    }

    /** One section, with the invariant. */
    method Step(e: Event)
      requires Inv(View()) && Enabled(View(), e)
      modifies this
      ensures View() == Next(old(View()), e) && Inv(View())
    {
      StepKeepsInv(View(), e);
      Perform(e);
    }

    /** What other executions do while task `t` awaits something: those events
        of the script that are theirs and possible. */
    method Others(t: nat, script: seq<Event>)
      requires Inv(View()) && t in tasks
      modifies this
      ensures Inv(View()) && t in tasks && tasks[t] == old(tasks[t]) && Grew(old(history), history, [], t)
    {
      var left := script;
      while left != []
        invariant Inv(View()) && t in tasks && tasks[t] == old(tasks[t]) && Grew(old(history), history, [], t)
        decreases |left|
      {
        var e := left[0];
        if e.t != t && Enabled(View(), e) {
          OthersGrow(View(), e, old(history), t);
          Step(e);
        }
        left := left[1..];
      }
    }

    /** The session's part of handle_exec, with other executions doing anything
        at each await. It returns the starting cwd, and then holds no lock any
        more; or None, while another execution of the session is at work. */
    method Execute(t: nat, key: Key, explicit: Option<string>, outcome: Outcome, others: nat -> seq<Event>)
      returns (r: Option<Option<string>>)
      requires Inv(View()) && t !in tasks
      modifies this
      ensures Inv(View()) && t in tasks && tasks[t].key == key
      ensures HoldsNone(View(), t)
      ensures r.Some? ==> tasks[t].pc.Gone? && Executed(history, |old(history)|, t, key, explicit, r.value, outcome)
      ensures r.None? ==>
        tasks[t].pc.Queued? && tasks[t].pc.b in holder && Occupied(View(), t, key) && Grew(old(history), history, [], t)
    {
      Enters(t, key, explicit, others(0), others(1));
      if tasks[t].pc.b in holder {
        HeldByOwnSession(View(), t);
        DoneHoldsNone(View(), t);
        return None;
      }
      Step(Lock(t));
      Others(t, others(2));
      ghost var before := history;
      var start := Starts(t, others(3));
      ghost var started := history;
      Ends(t, outcome, others(4));
      ghost var ran := history;
      Reports(t, others(5));
      ghost var reported := history;
      Exits(t, others(6));
      WholeExecution(before, started, ran, reported, history, t, key, explicit, start, outcome, |old(history)|);
      DoneHoldsNone(View(), t);
      r := Some(start);
    }

    method Enters(t: nat, key: Key, explicit: Option<string>, script: seq<Event>, more: seq<Event>)
      requires Inv(View()) && t !in tasks
      modifies this
      ensures Inv(View()) && t in tasks && tasks[t].pc.Queued? && tasks[t] == Task(key, explicit, tasks[t].pc)
      ensures Grew(old(history), history, [], t)
    {
      Step(Arrive(t, key, explicit));
      Others(t, script);
      Step(FindBucket(t));
      Others(t, more);
    }

    method Starts(t: nat, script: seq<Event>) returns (start: Option<string>)
      requires Inv(View()) && t in tasks && tasks[t].pc.Locked?
      modifies this
      ensures Inv(View()) && t in tasks && tasks[t].pc.Running?
      ensures tasks[t].key == old(tasks[t].key) && tasks[t].explicit == old(tasks[t].explicit)
      ensures Grew(old(history), history, [Started(t, tasks[t].key, tasks[t].explicit, start)], t)
    {
      assert TaskInv(View(), t) && KeyInv(View(), tasks[t].key);
      StepKeepsInv(View(), Start(t));
      start := ReadStart(t);
      Others(t, script);
    }

    method Ends(t: nat, outcome: Outcome, script: seq<Event>)
      requires Inv(View()) && t in tasks && tasks[t].pc.Running?
      modifies this
      ensures Inv(View()) && t in tasks && tasks[t].pc.Finished? && tasks[t].pc.outcome == outcome
      ensures tasks[t].key == old(tasks[t].key) && Grew(old(history), history, [], t)
    {
      Step(End(t, outcome));
      Others(t, script);
    }

    method Reports(t: nat, script: seq<Event>)
      requires Inv(View()) && t in tasks && tasks[t].pc.Finished?
      modifies this
      ensures Inv(View()) && t in tasks && tasks[t].pc.Updated? && tasks[t].pc.outcome == old(tasks[t].pc.outcome)
      ensures tasks[t].key == old(tasks[t].key)
      ensures Grew(old(history), history, Report(t, tasks[t].key, tasks[t].pc.outcome), t)
    {
      Step(Update(t));
      Others(t, script);
    }

    method Exits(t: nat, script: seq<Event>)
      requires Inv(View()) && t in tasks && tasks[t].pc.Updated?
      modifies this
      ensures Inv(View()) && t in tasks && tasks[t].key == old(tasks[t].key) && tasks[t].pc.Gone?
      ensures Grew(old(history), history, [ExitSent(t, tasks[t].key, old(tasks[t].pc.outcome))], t)
    {
      Step(SendExit(t));
      Others(t, script);
      Step(Release(t));
    }
  }
}
