/** The daemon's connection cache as an interleaving of atomic sections: a
    host table, a per-host first-contact lock, connects that may fail, deaths
    at any time, and eviction of the exact instance that failed. */
module ConnectionCache {
  import opened Prelude

  type Host = string

  /** Where a task stands in get_or_connect and in the execution behind it.
      Between two of these only awaits happen. */
  datatype Pc =
    | Begin                             // before the fast-path lookup
    | Missed                            // no live entry seen
    | WantLock(lock: nat)               // waiting for the host's first-contact lock
    | Rechecking(lock: nat)             // lock held, before the second lookup
    | Dialing(lock: nat)                // lock held, connect and deploy in flight
    | Dialed(lock: nat, conn: nat)      // lock held, connected, before the insert
    | Using(conn: nat)                  // get_or_connect returned this connection
    | Failing(conn: nat)                // execution failed, connection seen closed
    | Ended

  datatype Task = Task(host: Host, pc: Pc)

  datatype Cache = Cache(
    hosts: map<Host, nat>,              // the host table: connection instances
    connecting: map<Host, nat>,         // first-contact locks, never removed
    holder: map<nat, nat>,              // held locks and the tasks holding them
    tasks: map<nat, Task>,
    closed: set<nat>,                   // connections that died; they stay closed
    conns: nat,                         // instances made so far
    locks: nat)
  {
    predicate Live(h: Host) {
      h in hosts && hosts[h] !in closed
    }
  }

  datatype Event =
    | Arrive(t: nat, h: Host)
    | FastPath(t: nat)
    | FindLock(t: nat)
    | Acquire(t: nat)
    | Recheck(t: nat)
    | DialOk(t: nat)
    | DialFail(t: nat)                  // connect error or the first-contact timeout
    | Publish(t: nat)
    | Finish(t: nat, failed: bool)
    | Evict(t: nat)
    | Die(conn: nat)

  const EMPTY := Cache(map[], map[], map[], map[], {}, 0, 0)

  predicate Enabled(s: Cache, e: Event) {
    match e
    case Arrive(t, _) => t !in s.tasks
    case Die(c) => c < s.conns
    case FastPath(t) => t in s.tasks && s.tasks[t].pc.Begin?
    case FindLock(t) => t in s.tasks && s.tasks[t].pc.Missed?
    case Acquire(t) => t in s.tasks && s.tasks[t].pc.WantLock? && s.tasks[t].pc.lock !in s.holder
    case Recheck(t) => t in s.tasks && s.tasks[t].pc.Rechecking?
    case DialOk(t) => t in s.tasks && s.tasks[t].pc.Dialing?
    case DialFail(t) => t in s.tasks && s.tasks[t].pc.Dialing?
    case Publish(t) => t in s.tasks && s.tasks[t].pc.Dialed?
    case Finish(t, _) => t in s.tasks && s.tasks[t].pc.Using?
    case Evict(t) => t in s.tasks && s.tasks[t].pc.Failing?
  }

  /** The table with task `t` moved on. */
  function At(s: Cache, t: nat, pc: Pc): map<nat, Task>
    requires t in s.tasks
  {
    s.tasks[t := Task(s.tasks[t].host, pc)]
  }

  function Next(s: Cache, e: Event): Cache
    requires Enabled(s, e)
  {
    match e
    case Arrive(t, h) => s.(tasks := s.tasks[t := Task(h, Begin)])
    case FastPath(t) =>
      var h := s.tasks[t].host;
      s.(tasks := At(s, t, if s.Live(h) then Using(s.hosts[h]) else Missed))
    case FindLock(t) =>
      var h := s.tasks[t].host;
      if h in s.connecting then s.(tasks := At(s, t, WantLock(s.connecting[h])))
      else s.(connecting := s.connecting[h := s.locks], tasks := At(s, t, WantLock(s.locks)), locks := s.locks + 1)
    case Acquire(t) =>
      var l := s.tasks[t].pc.lock;
      s.(holder := s.holder[l := t], tasks := At(s, t, Rechecking(l)))
    case Recheck(t) =>
      var h, l := s.tasks[t].host, s.tasks[t].pc.lock;
      if s.Live(h) then s.(tasks := At(s, t, Using(s.hosts[h])), holder := s.holder - {l})
      else s.(tasks := At(s, t, Dialing(l)))
    case DialOk(t) => s.(tasks := At(s, t, Dialed(s.tasks[t].pc.lock, s.conns)), conns := s.conns + 1)
    case DialFail(t) => s.(tasks := At(s, t, Ended), holder := s.holder - {s.tasks[t].pc.lock})
    case Publish(t) =>
      var h, c, l := s.tasks[t].host, s.tasks[t].pc.conn, s.tasks[t].pc.lock;
      if s.Live(h) then s.(tasks := At(s, t, Using(s.hosts[h])), holder := s.holder - {l})
      else s.(tasks := At(s, t, Using(c)), hosts := s.hosts[h := c], holder := s.holder - {l})
    case Finish(t, failed) =>
      var c := s.tasks[t].pc.conn;
      s.(tasks := At(s, t, if failed && c in s.closed then Failing(c) else Ended))
    case Evict(t) =>
      var h, c := s.tasks[t].host, s.tasks[t].pc.conn;
      s.(tasks := At(s, t, Ended), hosts := if h in s.hosts && s.hosts[h] == c then s.hosts - {h} else s.hosts)
    case Die(c) => s.(closed := s.closed + {c})
  }

  /** The cache after a list of events; None when one of them could not happen
      there. Ranging over all lists is ranging over all interleavings. */
  function Run(s: Cache, events: seq<Event>): Option<Cache>
    decreases |events|
  {
    if events == [] then Some(s)
    else if Enabled(s, events[0]) then Run(Next(s, events[0]), events[1..])
    else None
  }

  // -- the invariant ----------------------------------------------------------

  predicate Holds(pc: Pc) {
    pc.Rechecking? || pc.Dialing? || pc.Dialed?
  }

  predicate KnowsLock(pc: Pc) {
    pc.WantLock? || Holds(pc)
  }

  predicate InFlight(pc: Pc) {
    pc.Dialing? || pc.Dialed?
  }

  ghost predicate TaskInv(s: Cache, t: nat)
    requires t in s.tasks
  {
    var h, pc := s.tasks[t].host, s.tasks[t].pc;
    && (KnowsLock(pc) ==> h in s.connecting && s.connecting[h] == pc.lock)
    && (Holds(pc) ==> pc.lock in s.holder && s.holder[pc.lock] == t)
    && (InFlight(pc) ==> !s.Live(h))
    && (pc.Dialed? ==> pc.conn < s.conns)
    && (pc.Using? ==> pc.conn < s.conns && (pc.conn !in s.closed ==> h in s.hosts && s.hosts[h] == pc.conn))
    && (pc.Failing? ==> pc.conn in s.closed)
  }

  /** A held lock is held by a task at work under it. */
  ghost predicate HeldInv(s: Cache, l: nat)
    requires l in s.holder
  {
    var t := s.holder[l];
    t in s.tasks && Holds(s.tasks[t].pc) && s.tasks[t].pc.lock == l
  }

  /** Every host has its own lock. */
  ghost predicate LocksInv(s: Cache) {
    && (forall l | l in s.holder :: HeldInv(s, l))
    && (forall h | h in s.connecting :: s.connecting[h] < s.locks)
    && (forall g, h | g in s.connecting && h in s.connecting && s.connecting[g] == s.connecting[h] :: g == h)
  }

  ghost predicate Inv(s: Cache) {
    && LocksInv(s)
    && (forall t | t in s.tasks :: TaskInv(s, t))
    && (forall c | c in s.closed :: c < s.conns)
    && (forall h | h in s.hosts :: s.hosts[h] < s.conns)
  }

  /** Every atomic section keeps the invariant, for any number of tasks. */
  lemma StepKeepsInv(s: Cache, e: Event)
    requires Inv(s) && Enabled(s, e)
    ensures Inv(Next(s, e))
  {
    var n := Next(s, e);
    forall u | u in n.tasks ensures TaskInv(n, u) {
      if Actor(e) == Some(u) {
        ActorKept(s, e);
      } else {
        BystanderKept(s, e, u);
      }
    }
    TablesKept(s, e);
    LocksKept(s, e);
  }

  function Actor(e: Event): Option<nat> {
    if e.Die? then None else Some(e.t)
  }

  lemma ActorKept(s: Cache, e: Event)
    requires Inv(s) && Enabled(s, e) && !e.Die?
    ensures TaskInv(Next(s, e), e.t)
  {
    if !e.Arrive? {
      assert TaskInv(s, e.t);
    }
  }

  /** What one task does leaves every other task's conditions standing: the
      lock keeps a second task of the host from inserting, and an eviction
      only removes an instance that is closed. */
  lemma BystanderKept(s: Cache, e: Event, u: nat)
    requires Inv(s) && Enabled(s, e) && u in s.tasks && Actor(e) != Some(u)
    ensures TaskInv(Next(s, e), u)
  {
    assert TaskInv(s, u);
    match e {
      case Arrive(_, _) =>
      case Die(_) =>
      case _ => assert TaskInv(s, e.t);
    }
  }

  lemma TablesKept(s: Cache, e: Event)
    requires Inv(s) && Enabled(s, e)
    ensures var n := Next(s, e);
            (forall c | c in n.closed :: c < n.conns) && (forall h | h in n.hosts :: n.hosts[h] < n.conns)
  {
    if e.Publish? {
      assert TaskInv(s, e.t);
    }
  }

  /** What a step does to the held locks: taking one, or giving it back. */
  lemma LocksKept(s: Cache, e: Event)
    requires Inv(s) && Enabled(s, e)
    ensures LocksInv(Next(s, e))
  {
    var n := Next(s, e);
    forall l | l in n.holder
      ensures HeldInv(n, l)
    {
      HeldKept(s, e, l);
    }
  }

  lemma HeldKept(s: Cache, e: Event, l: nat)
    requires Inv(s) && Enabled(s, e) && l in Next(s, e).holder
    ensures HeldInv(Next(s, e), l)
  {
    if !e.Die? && !e.Arrive? {
      assert TaskInv(s, e.t);
    }
    if l in s.holder {
      assert HeldInv(s, l);
    }
  }

  lemma {:induction false} RunKeepsInv(s: Cache, events: seq<Event>)
    requires Inv(s)
    ensures Run(s, events).Some? ==> Inv(Run(s, events).value)
    decreases |events|
  {
    if events != [] && Enabled(s, events[0]) {
      StepKeepsInv(s, events[0]);
      RunKeepsInv(Next(s, events[0]), events[1..]);
    }
  }

  // -- what holds in every interleaving ---------------------------------------

  /** Two tasks holding a live connection to one host hold the same one, and
      it is the host's table entry. */
  ghost predicate OneConnection(s: Cache) {
    forall t, u | t in s.tasks && u in s.tasks && s.tasks[t].pc.Using? && s.tasks[u].pc.Using?
      && s.tasks[t].host == s.tasks[u].host && s.tasks[t].pc.conn !in s.closed && s.tasks[u].pc.conn !in s.closed ::
      s.tasks[t].pc.conn == s.tasks[u].pc.conn && s.tasks[t].host in s.hosts
      && s.hosts[s.tasks[t].host] == s.tasks[t].pc.conn
  }

  /** At most one connect per host is in flight. */
  ghost predicate OneDial(s: Cache) {
    forall t, u | t in s.tasks && u in s.tasks && InFlight(s.tasks[t].pc) && InFlight(s.tasks[u].pc)
      && s.tasks[t].host == s.tasks[u].host :: t == u
  }

  /** A task about to insert finds no live entry: the branch that keeps a
      connection made by another task is never taken. */
  ghost predicate InsertIsFirst(s: Cache) {
    forall t | t in s.tasks && s.tasks[t].pc.Dialed? :: !s.Live(s.tasks[t].host)
  }

  lemma InvMeans(s: Cache)
    requires Inv(s)
    ensures OneConnection(s) && OneDial(s) && InsertIsFirst(s)
  {
    assert forall t | t in s.tasks :: TaskInv(s, t);
  }

  lemma EveryInterleaving(events: seq<Event>)
    requires Run(EMPTY, events).Some?
    ensures var s := Run(EMPTY, events).value; OneConnection(s) && OneDial(s) && InsertIsFirst(s)
  {
    RunKeepsInv(EMPTY, events);
    InvMeans(Run(EMPTY, events).value);
  }

  /** No step of any run drops or replaces an entry whose connection is still
      alive, neither by eviction nor by an insert. */
  lemma LiveEntriesStay(events: seq<Event>, e: Event, h: Host)
    requires Run(EMPTY, events).Some? && Enabled(Run(EMPTY, events).value, e)
    requires Run(EMPTY, events).value.Live(h)
    ensures var s := Run(EMPTY, events).value;
            var n := Next(s, e);
            h in n.hosts && n.hosts[h] == s.hosts[h]
  {
    RunKeepsInv(EMPTY, events);
    var s := Run(EMPTY, events).value;
    if e.Publish? || e.Evict? {
      assert TaskInv(s, e.t);
    }
  }

  // -- no lock is ever lost ---------------------------------------------------

  /** Some other task of the host works under the host's lock. */
  ghost predicate Occupied(s: Cache, t: nat, h: Host) {
    exists u :: u != t && u in s.tasks && s.tasks[u].host == h && Holds(s.tasks[u].pc)
  }

  ghost predicate HoldsNone(s: Cache, t: nat) {
    forall l | l in s.holder :: s.holder[l] != t
  }

  /** A lock that is held is held by a task of its host, at work under it. */
  lemma HeldByOwnHost(s: Cache, t: nat)
    requires Inv(s) && t in s.tasks && s.tasks[t].pc.WantLock? && s.tasks[t].pc.lock in s.holder
    ensures var u := s.holder[s.tasks[t].pc.lock];
            && u != t && u in s.tasks && s.tasks[u].host == s.tasks[t].host
            && Holds(s.tasks[u].pc) && s.tasks[u].pc.lock == s.tasks[t].pc.lock
  {
    var l := s.tasks[t].pc.lock;
    assert TaskInv(s, t) && HeldInv(s, l);
    assert TaskInv(s, s.holder[l]);
  }

  /** A task that no longer works under a lock holds none. */
  lemma DoneHoldsNone(s: Cache, t: nat)
    requires Inv(s) && t in s.tasks && !Holds(s.tasks[t].pc)
    ensures HoldsNone(s, t)
  {
    forall l | l in s.holder
      ensures s.holder[l] != t
    {
      assert HeldInv(s, l);
    }
  }

  /** In every run: locks are held by tasks at work only, one of them each. */
  lemma LocksAreHeldByWork(events: seq<Event>, l: nat)
    requires Run(EMPTY, events).Some? && l in Run(EMPTY, events).value.holder
    ensures var s := Run(EMPTY, events).value;
            var t := s.holder[l];
            && t in s.tasks && Holds(s.tasks[t].pc) && s.tasks[t].pc.lock == l
            && s.tasks[t].host in s.connecting && s.connecting[s.tasks[t].host] == l
  {
    RunKeepsInv(EMPTY, events);
    var s := Run(EMPTY, events).value;
    assert HeldInv(s, l);
    assert TaskInv(s, s.holder[l]);
  }

  /** A task can take the lock it wants exactly when no other task of its host
      is at work under it. */
  lemma FreeLockIsTaken(events: seq<Event>, t: nat)
    requires Run(EMPTY, events).Some?
    requires var s := Run(EMPTY, events).value; t in s.tasks && s.tasks[t].pc.WantLock?
    ensures var s := Run(EMPTY, events).value; Enabled(s, Acquire(t)) <==> !Occupied(s, t, s.tasks[t].host)
  {
    RunKeepsInv(EMPTY, events);
    var s := Run(EMPTY, events).value;
    if s.tasks[t].pc.lock in s.holder {
      HeldByOwnHost(s, t);
    }
  }

  /** What the task that holds a lock does next, up to giving it back, with a
      connect that goes well or one that fails. */
  function Rest(s: Cache, t: nat, connects: bool): seq<Event>
    requires t in s.tasks
  {
    match s.tasks[t].pc
    case Rechecking(_) => [Recheck(t)] + (if s.Live(s.tasks[t].host) then [] else Connecting(t, connects))
    case Dialing(_) => Connecting(t, connects)
    case Dialed(_, _) => [Publish(t)]
    case _ => []
  }

  function Connecting(t: nat, connects: bool): seq<Event> {
    if connects then [DialOk(t)] + [Publish(t)] else [DialFail(t)]
  }

  /** Task `t` has given lock `l` back, and nothing else changed hands. */
  ghost predicate GaveBack(s: Cache, t: nat, l: nat, r: Option<Cache>) {
    && r.Some? && r.value.holder == s.holder - {l} && t in r.value.tasks && !Holds(r.value.tasks[t].pc)
    && forall u | u in s.tasks && u != t :: u in r.value.tasks && r.value.tasks[u] == s.tasks[u]
  }

  /** A step that gives the lock back. */
  lemma FreesAtOnce(s: Cache, t: nat, e: Event)
    requires Enabled(s, e) && (e == Recheck(t) || e == DialFail(t) || e == Publish(t))
    requires e.Recheck? ==> s.Live(s.tasks[t].host)
    ensures GaveBack(s, t, s.tasks[t].pc.lock, Run(s, [e]))
  {
    assert [e][1..] == [];
  }

  /** A step that keeps it, and those behind it. */
  lemma FreesAfter(s: Cache, t: nat, e: Event, rest: seq<Event>)
    requires Enabled(s, e) && (e == DialOk(t) || (e == Recheck(t) && !s.Live(s.tasks[t].host)))
    requires GaveBack(Next(s, e), t, s.tasks[t].pc.lock, Run(Next(s, e), rest))
    ensures GaveBack(s, t, s.tasks[t].pc.lock, Run(s, [e] + rest))
  {
    assert ([e] + rest)[1..] == rest;
  }

  lemma DialGivesBack(s: Cache, t: nat, connects: bool)
    requires t in s.tasks && s.tasks[t].pc.Dialing?
    ensures GaveBack(s, t, s.tasks[t].pc.lock, Run(s, Connecting(t, connects)))
  {
    if connects {
      FreesAtOnce(Next(s, DialOk(t)), t, Publish(t));
      FreesAfter(s, t, DialOk(t), [Publish(t)]);
    } else {
      FreesAtOnce(s, t, DialFail(t));
    }
  }

  lemma RestGivesBack(s: Cache, t: nat, connects: bool)
    requires t in s.tasks && Holds(s.tasks[t].pc)
    ensures GaveBack(s, t, s.tasks[t].pc.lock, Run(s, Rest(s, t, connects)))
  {
    match s.tasks[t].pc {
      case Rechecking(_) =>
        if s.Live(s.tasks[t].host) {
          assert [Recheck(t)] + [] == [Recheck(t)];
          FreesAtOnce(s, t, Recheck(t));
        } else {
          DialGivesBack(Next(s, Recheck(t)), t, connects);
          FreesAfter(s, t, Recheck(t), Connecting(t, connects));
        }
      case Dialing(_) => DialGivesBack(s, t, connects);
      case Dialed(_, _) => FreesAtOnce(s, t, Publish(t));
    }
  }

  /** No command waits in vain: in every run, a task that wants a lock can take
      it at once, or as soon as the task that holds it has taken its own next
      steps, at most three, whether its connect goes well or fails. */
  lemma LockComes(events: seq<Event>, t: nat, connects: bool)
    requires Run(EMPTY, events).Some?
    requires t in Run(EMPTY, events).value.tasks && Run(EMPTY, events).value.tasks[t].pc.WantLock?
    ensures var s := Run(EMPTY, events).value;
            var l := s.tasks[t].pc.lock;
            && (l !in s.holder ==> Enabled(s, Acquire(t)))
            && (l in s.holder ==>
                  && s.holder[l] in s.tasks && |Rest(s, s.holder[l], connects)| <= 3
                  && Run(s, Rest(s, s.holder[l], connects)).Some?
                  && Enabled(Run(s, Rest(s, s.holder[l], connects)).value, Acquire(t)))
  {
    RunKeepsInv(EMPTY, events);
    var s := Run(EMPTY, events).value;
    if s.tasks[t].pc.lock in s.holder {
      HeldByOwnHost(s, t);
      RestGivesBack(s, s.holder[s.tasks[t].pc.lock], connects);
    }
  }

  /** A connect makes a connection nobody has yet. */
  lemma NewConnectionIsNew(events: seq<Event>, t: nat)
    requires Run(EMPTY, events).Some? && Enabled(Run(EMPTY, events).value, DialOk(t))
    ensures var s := Run(EMPTY, events).value;
            var pc := Next(s, DialOk(t)).tasks[t].pc;
            && pc.Dialed? && pc.conn !in s.closed && (forall h | h in s.hosts :: s.hosts[h] != pc.conn)
            && forall u | u in s.tasks && (s.tasks[u].pc.Dialed? || s.tasks[u].pc.Using?) ::
                 s.tasks[u].pc.conn != pc.conn
  {
    RunKeepsInv(EMPTY, events);
    var s := Run(EMPTY, events).value;
    assert forall u | u in s.tasks :: TaskInv(s, u);
  }

  /** Entries whose connection lives to the end are where they were. */
  ghost predicate LiveKept(s: Cache, n: Cache) {
    forall h | h in s.hosts && s.hosts[h] !in n.closed :: h in n.hosts && n.hosts[h] == s.hosts[h]
  }

  lemma LiveStep(s: Cache, e: Event)
    requires Inv(s) && Enabled(s, e)
    ensures LiveKept(s, Next(s, e)) && s.closed <= Next(s, e).closed
  {
    if e.Publish? || e.Evict? {
      assert TaskInv(s, e.t);
    }
  }

  lemma LiveChain(a: Cache, b: Cache, c: Cache)
    requires LiveKept(a, b) && LiveKept(b, c) && b.closed <= c.closed
    ensures LiveKept(a, c)
  {
  }

  /** The state get_or_connect leaves behind for its result. */
  ghost predicate Returns(s: Cache, t: nat, h: Host, r: Got) {
    && t in s.tasks && s.tasks[t].host == h && HoldsNone(s, t)
    && match r
       case Conn(c) => s.tasks[t].pc == Using(c) && (c !in s.closed ==> h in s.hosts && s.hosts[h] == c)
       case ConnectError => s.tasks[t].pc == Ended
       case Waiting =>
         s.tasks[t].pc.WantLock? && h in s.connecting && s.connecting[h] == s.tasks[t].pc.lock
         && s.connecting[h] in s.holder && Occupied(s, t, h)
  }

  // -- the daemon's shared state, section by section --------------------------

  /** How get_or_connect ends, or that it still waits for the lock. */
  datatype Got = Conn(c: nat) | ConnectError | Waiting

  class Shared {
    var hosts: map<Host, nat>
    var connecting: map<Host, nat>
    var holder: map<nat, nat>
    var tasks: map<nat, Task>
    var closed: set<nat>
    var conns: nat
    var locks: nat

    constructor ()
      ensures View() == EMPTY
    {
      hosts, connecting, holder, tasks, closed, conns, locks := map[], map[], map[], map[], {}, 0, 0;
    }

    function View(): Cache
      reads this
    {
      Cache(hosts, connecting, holder, tasks, closed, conns, locks)
    }

    method MoveTo(t: nat, pc: Pc)
      requires t in tasks
      modifies this`tasks
      ensures tasks == At(old(View()), t, pc)
    {
      tasks := tasks[t := Task(tasks[t].host, pc)];
    }

    method Begins(t: nat, h: Host)
      requires Enabled(View(), Arrive(t, h))
      modifies this`tasks
      ensures View() == Next(old(View()), Arrive(t, h))
    {
      tasks := tasks[t := Task(h, Begin)];
    }

    /** The cached lookup, which takes no per-host lock. */
    method LookUp(t: nat)
      requires Enabled(View(), FastPath(t))
      modifies this`tasks
      ensures View() == Next(old(View()), FastPath(t))
    {
      var h := tasks[t].host;
      if h in hosts && hosts[h] !in closed {
        MoveTo(t, Using(hosts[h]));
      } else {
        MoveTo(t, Missed);
      }
    }

    method FirstContactLock(t: nat)
      requires Enabled(View(), FindLock(t))
      modifies this`tasks, this`connecting, this`locks
      ensures View() == Next(old(View()), FindLock(t))
    {
      var h := tasks[t].host;
      if h !in connecting {
        connecting := connecting[h := locks];
        locks := locks + 1;
      }
      MoveTo(t, WantLock(connecting[h]));
    }

    method AcquireLock(t: nat)
      requires Enabled(View(), Acquire(t))
      modifies this`tasks, this`holder
      ensures View() == Next(old(View()), Acquire(t))
    {
      var l := tasks[t].pc.lock;
      holder := holder[l := t];
      MoveTo(t, Rechecking(l));
    }

    method LookUpAgain(t: nat)
      requires Enabled(View(), Recheck(t))
      modifies this`tasks, this`holder
      ensures View() == Next(old(View()), Recheck(t))
    {
      var h, l := tasks[t].host, tasks[t].pc.lock;
      if h in hosts && hosts[h] !in closed {
        MoveTo(t, Using(hosts[h]));
        holder := holder - {l};
      } else {
        MoveTo(t, Dialing(l));
      }
    }

    method Connected(t: nat)
      requires Enabled(View(), DialOk(t))
      modifies this`tasks, this`conns
      ensures View() == Next(old(View()), DialOk(t))
    {
      MoveTo(t, Dialed(tasks[t].pc.lock, conns));
      conns := conns + 1;
    }

    method ConnectFailed(t: nat)
      requires Enabled(View(), DialFail(t))
      modifies this`tasks, this`holder
      ensures View() == Next(old(View()), DialFail(t))
    {
      holder := holder - {tasks[t].pc.lock};
      MoveTo(t, Ended);
    }

    /** The insert, with its check for a connection made by another task. */
    method Insert(t: nat)
      requires Enabled(View(), Publish(t))
      modifies this`tasks, this`hosts, this`holder
      ensures View() == Next(old(View()), Publish(t))
    {
      var h, c, l := tasks[t].host, tasks[t].pc.conn, tasks[t].pc.lock;
      if h in hosts && hosts[h] !in closed {
        MoveTo(t, Using(hosts[h]));
      } else {
        hosts := hosts[h := c];
        MoveTo(t, Using(c));
      }
      holder := holder - {l};
    }

    method ExecutionEnds(t: nat, failed: bool)
      requires Enabled(View(), Finish(t, failed))
      modifies this`tasks
      ensures View() == Next(old(View()), Finish(t, failed))
    {
      var c := tasks[t].pc.conn;
      if failed && c in closed {
        MoveTo(t, Failing(c));
      } else {
        MoveTo(t, Ended);
      }
    }

    /** Evicts only the exact instance that failed. */
    method EvictFailed(t: nat)
      requires Enabled(View(), Evict(t))
      modifies this`tasks, this`hosts
      ensures View() == Next(old(View()), Evict(t))
    {
      var h, c := tasks[t].host, tasks[t].pc.conn;
      if h in hosts && hosts[h] == c {
        hosts := hosts - {h};
      }
      MoveTo(t, Ended);
    }

    method ConnectionDies(c: nat)
      requires Enabled(View(), Die(c))
      modifies this`closed
      ensures View() == Next(old(View()), Die(c))
    {
      closed := closed + {c};
    }

    method Perform(e: Event)
      requires Enabled(View(), e)
      modifies this
      ensures View() == Next(old(View()), e)
    {
      match e {
        case Arrive(t, h) => Begins(t, h);
        case FastPath(t) => LookUp(t);
        case FindLock(t) => FirstContactLock(t);
        case Acquire(t) => AcquireLock(t);
        case Recheck(t) => LookUpAgain(t);
        case DialOk(t) => Connected(t);
        case DialFail(t) => ConnectFailed(t);
        case Publish(t) => Insert(t);
        case Finish(t, failed) => ExecutionEnds(t, failed);
        case Evict(t) => EvictFailed(t);
        case Die(c) => ConnectionDies(c);
      }
    }

    /** Any interleaving, as far as it is possible, performed on a fresh state
        ends with at most one live connection and one dial per host. */
    method Interleave(events: seq<Event>) returns (ok: bool)
      requires View() == EMPTY
      modifies this
      ensures ok <==> Run(EMPTY, events).Some?
      ensures ok ==> View() == Run(EMPTY, events).value
      ensures OneConnection(View()) && OneDial(View()) && InsertIsFirst(View())
    {
      var k := 0;
      assert events[0..] == events;
      while k < |events|
        invariant k <= |events| && Inv(View())
        invariant Run(EMPTY, events) == Run(View(), events[k..])
      {
        assert events[k..][0] == events[k] && events[k..][1..] == events[k + 1..];
        if !Enabled(View(), events[k]) {
          InvMeans(View());
          return false;
        }
        StepKeepsInv(View(), events[k]);
        Perform(events[k]);
        k := k + 1;
      }
      InvMeans(View());
      ok := true;
    }

    /** What other tasks and the network do while task `t` awaits something:
        those events of the script that are theirs and possible. */
    method Others(t: nat, script: seq<Event>)
      requires Inv(View())
      modifies this
      ensures Inv(View()) && LiveKept(old(View()), View()) && old(closed) <= closed
      ensures (t in tasks <==> t in old(tasks)) && (t in tasks ==> tasks[t] == old(tasks[t]))
    {
      var left := script;
      while left != []
        invariant Inv(View()) && LiveKept(old(View()), View()) && old(closed) <= closed
        invariant (t in tasks <==> t in old(tasks)) && (t in tasks ==> tasks[t] == old(tasks[t]))
        decreases |left|
      {
        var e := left[0];
        if Actor(e) != Some(t) && Enabled(View(), e) {
          StepKeepsInv(View(), e);
          LiveStep(View(), e);
          Perform(e);
        }
        left := left[1..];
      }
    }

    /** A section of task `t`, and what happens during the await behind it. */
    method StepThen(t: nat, e: Event, script: seq<Event>)
      requires Inv(View()) && Enabled(View(), e) && Actor(e) == Some(t)
      modifies this
      ensures Inv(View()) && LiveKept(old(View()), View()) && old(closed) <= closed
      ensures t in tasks && TaskInv(View(), t) && tasks[t] == Next(old(View()), e).tasks[t]
    {
      Step(e);
      ghost var mid := View();
      Others(t, script);
      LiveChain(old(View()), mid, View());
    }

    /** get_or_connect, with anything happening at each await. The connection
        it returns is the host's table entry, unless it died meanwhile; it
        never drops or replaces an entry whose connection lives on, and returns
        one that was there at once. Only while another task of the host is at
        work under its lock does it wait, and it leaves without a lock. */
    method GetOrConnect(t: nat, h: Host, others: nat -> seq<Event>, connects: bool) returns (r: Got)
      requires Inv(View()) && t !in tasks
      modifies this
      ensures Inv(View()) && LiveKept(old(View()), View()) && Returns(View(), t, h, r)
      ensures r == ConnectError ==> !connects
      ensures h in old(hosts) && old(hosts)[h] !in closed ==> r == Conn(old(hosts)[h])
    {
      ghost var was := View();
      StepThen(t, Arrive(t, h), others(0));
      ghost var arrived := View();
      StepThen(t, FastPath(t), []);
      LiveChain(was, arrived, View());
      if tasks[t].pc.Using? {
        return Conn(tasks[t].pc.conn);
      }
      ghost var missed := View();
      Others(t, others(1));
      LiveChain(was, missed, View());
      ghost var slow := View();
      r := Connect(t, h, others, connects);
      LiveChain(was, slow, View());
    }

    /** The slow path, from the first-contact lock on. */
    method Connect(t: nat, h: Host, others: nat -> seq<Event>, connects: bool) returns (r: Got)
      requires Inv(View()) && t in tasks && tasks[t] == Task(h, Missed)
      modifies this
      ensures Inv(View()) && LiveKept(old(View()), View()) && old(closed) <= closed && Returns(View(), t, h, r)
      ensures r == ConnectError ==> !connects
    {
      ghost var was := View();
      StepThen(t, FindLock(t), others(2));
      if tasks[t].pc.lock in holder {
        return Waiting;
      }
      ghost var wanting := View();
      StepThen(t, Acquire(t), others(3));
      LiveChain(was, wanting, View());
      ghost var locked := View();
      StepThen(t, Recheck(t), []);
      LiveChain(was, locked, View());
      if tasks[t].pc.Using? {
        return Conn(tasks[t].pc.conn);
      }
      ghost var missed := View();
      r := Dial(t, h, others(4), others(5), connects);
      LiveChain(was, missed, View());
    }

    /** The connect itself, lock held. */
    method Dial(t: nat, h: Host, during: seq<Event>, after: seq<Event>, connects: bool) returns (r: Got)
      requires Inv(View()) && t in tasks && tasks[t].host == h && tasks[t].pc.Dialing?
      modifies this
      ensures Inv(View()) && LiveKept(old(View()), View()) && old(closed) <= closed && Returns(View(), t, h, r)
      ensures r == ConnectError ==> !connects
    {
      ghost var was := View();
      Others(t, during);
      ghost var dialed := View();
      if !connects {
        StepThen(t, DialFail(t), []);
        LiveChain(was, dialed, View());
        return ConnectError;
      }
      StepThen(t, DialOk(t), after);
      LiveChain(was, dialed, View());
      ghost var ready := View();
      StepThen(t, Publish(t), []);
      LiveChain(was, ready, View());
      r := Conn(tasks[t].pc.conn);
    }

    /** The end of an execution: a connection that died under it is dropped
        from the table, and nothing that lives. */
    method EndExecution(t: nat, failed: bool, others: seq<Event>)
      requires Inv(View()) && t in tasks && tasks[t].pc.Using?
      modifies this
      ensures Inv(View()) && LiveKept(old(View()), View()) && t in tasks && tasks[t].pc == Ended
      ensures var h, c := old(tasks[t].host), old(tasks[t].pc.conn);
              failed && c in old(closed) ==> !(h in hosts && hosts[h] == c)
    {
      Step(Finish(t, failed));
      if tasks[t].pc.Failing? {
        Others(t, others);
        Step(Evict(t));
      }
    }

    /** One section, with the invariant. */
    method Step(e: Event)
      requires Inv(View()) && Enabled(View(), e)
      modifies this
      ensures View() == Next(old(View()), e) && Inv(View())
      ensures LiveKept(old(View()), View()) && old(closed) <= closed
      ensures !e.Die? ==> TaskInv(View(), e.t)
    {
      StepKeepsInv(View(), e);
      LiveStep(View(), e);
      Perform(e);
    }
  }
}
