/** handle_exec as a whole: the connection cache and the session buckets run
    by the same tasks, with eviction and cwd update in their order. */
module Daemon {
  import opened Prelude
  import C = ConnectionCache
  import S = SessionCwd

  datatype State = State(cache: C.Cache, sess: S.Sessions)

  datatype Event = Conn(c: C.Event) | Sess(s: S.Event)

  const FRESH := State(C.EMPTY, S.EMPTY)

  /** The order handle_exec imposes on one task: its bucket is looked up with
      the connection in hand, the connection is let go (and evicted when dead)
      once the execution has ended, and the cwd is updated after that. */
  predicate InOrder(d: State, e: Event) {
    match e
    case Conn(c) =>
      c.Finish? ==> c.t in d.sess.tasks && d.sess.tasks[c.t].pc.Finished?
                    && c.failed == d.sess.tasks[c.t].pc.outcome.Failed?
    case Sess(s) =>
      && (s.Arrive? ==> s.t in d.cache.tasks && d.cache.tasks[s.t].pc.Using? && d.cache.tasks[s.t].host == s.key.host)
      && (s.Update? ==> s.t in d.cache.tasks && d.cache.tasks[s.t].pc.Ended?)
  }

  predicate Enabled(d: State, e: Event) {
    InOrder(d, e) && match e case Conn(c) => C.Enabled(d.cache, c) case Sess(s) => S.Enabled(d.sess, s)
  }

  function Next(d: State, e: Event): State
    requires Enabled(d, e)
  {
    match e
    case Conn(c) => d.(cache := C.Next(d.cache, c))
    case Sess(s) => d.(sess := S.Next(d.sess, s))
  }

  function Run(d: State, events: seq<Event>): Option<State>
    decreases |events|
  {
    if events == [] then Some(d)
    else if Enabled(d, events[0]) then Run(Next(d, events[0]), events[1..])
    else None
  }

  function ConnEvents(events: seq<Event>): seq<C.Event> {
    if events == [] then []
    else (if events[0].Conn? then [events[0].c] else []) + ConnEvents(events[1..])
  }

  function SessEvents(events: seq<Event>): seq<S.Event> {
    if events == [] then []
    else (if events[0].Sess? then [events[0].s] else []) + SessEvents(events[1..])
  }

  /** A run of the daemon is a run of each half on its own events: in
      particular no death, eviction or reconnect ever changes a bucket. */
  lemma {:induction false} RunSplits(d: State, events: seq<Event>)
    requires Run(d, events).Some?
    ensures C.Run(d.cache, ConnEvents(events)) == Some(Run(d, events).value.cache)
    ensures S.Run(d.sess, SessEvents(events)) == Some(Run(d, events).value.sess)
    decreases |events|
  {
    if events != [] {
      RunSplits(Next(d, events[0]), events[1..]);
      if events[0].Conn? {
        assert ConnEvents(events)[1..] == ConnEvents(events[1..]) && SessEvents(events) == SessEvents(events[1..]);
      } else {
        assert SessEvents(events)[1..] == SessEvents(events[1..]) && ConnEvents(events) == ConnEvents(events[1..]);
      }
    }
  }

  /** A task with an execution in hand: it holds its connection until the
      execution has ended, and has let it go when the cwd is updated. */
  ghost predicate Coupled(d: State) {
    forall t | t in d.sess.tasks :: CoupledAt(d, t)
  }

  ghost predicate CoupledAt(d: State, t: nat)
    requires t in d.sess.tasks
  {
    var pc := d.sess.tasks[t].pc;
    && t in d.cache.tasks && d.cache.tasks[t].host == d.sess.tasks[t].key.host
    && (pc.Begin? || pc.Queued? || pc.Locked? || pc.Running? ==> d.cache.tasks[t].pc.Using?)
    && (pc.Updated? || pc.Leaving? || pc.Gone? ==> d.cache.tasks[t].pc.Ended?)
    && (pc.Finished? ==> d.cache.tasks[t].pc.Using? || d.cache.tasks[t].pc.Ended?
                         || (d.cache.tasks[t].pc.Failing? && pc.outcome.Failed?))
  }

  predicate Finishes(after: C.Pc, e: C.Event, t: nat) {
    e.Finish? && e.t == t && (after.Ended? || (after.Failing? && e.failed))
  }

  /** How one event of the cache moves one task. */
  lemma CacheMoves(s: C.Cache, e: C.Event, t: nat)
    requires t in s.tasks && C.Enabled(s, e)
    ensures var n := C.Next(s, e);
            && t in n.tasks && n.tasks[t].host == s.tasks[t].host
            && (s.tasks[t].pc.Ended? ==> n.tasks[t].pc.Ended?)
            && (s.tasks[t].pc.Failing? ==> n.tasks[t].pc.Failing? || n.tasks[t].pc.Ended?)
            && (s.tasks[t].pc.Using? ==> n.tasks[t] == s.tasks[t] || Finishes(n.tasks[t].pc, e, t))
  {
  }

  lemma ConnKeepsCoupled(d: State, c: C.Event, t: nat)
    requires Coupled(d) && Enabled(d, Conn(c)) && t in d.sess.tasks
    ensures CoupledAt(Next(d, Conn(c)), t)
  {
    assert CoupledAt(d, t);
    CacheMoves(d.cache, c, t);
  }

  lemma SessKeepsCoupled(d: State, s: S.Event, t: nat)
    requires Coupled(d) && Enabled(d, Sess(s)) && t in S.Next(d.sess, s).tasks
    ensures CoupledAt(Next(d, Sess(s)), t)
  {
    if t in d.sess.tasks { assert CoupledAt(d, t); }
  }

  lemma StepKeepsCoupled(d: State, e: Event)
    requires Coupled(d) && Enabled(d, e)
    ensures Coupled(Next(d, e))
  {
    var n := Next(d, e);
    forall t | t in n.sess.tasks ensures CoupledAt(n, t) {
      match e {
        case Conn(c) => ConnKeepsCoupled(d, c, t);
        case Sess(s) => SessKeepsCoupled(d, s, t);
      }
    }
  }

  lemma {:induction false} RunKeepsCoupled(d: State, events: seq<Event>)
    requires Coupled(d)
    ensures Run(d, events).Some? ==> Coupled(Run(d, events).value)
    decreases |events|
  {
    if events != [] && Enabled(d, events[0]) {
      StepKeepsCoupled(d, events[0]);
      RunKeepsCoupled(Next(d, events[0]), events[1..]);
    }
  }

  /** In every interleaving: commands under way on one host over live
      connections share one connection, the cached one; histories of every
      session are in order; and no cwd is updated, and no Exit frame sent,
      before the task has let its connection go, eviction included. */
  lemma EveryInterleaving(events: seq<Event>)
    requires Run(FRESH, events).Some?
    ensures var d := Run(FRESH, events).value;
            && S.HistoryOk(d.sess.history)
            && (forall t | t in d.sess.tasks && (d.sess.tasks[t].pc.Updated? || d.sess.tasks[t].pc.Leaving?) ::
                  t in d.cache.tasks && d.cache.tasks[t].pc.Ended?)
            && (forall t, u | t in d.sess.tasks && u in d.sess.tasks
                  && d.sess.tasks[t].pc.Running? && d.sess.tasks[u].pc.Running?
                  && d.sess.tasks[t].key.host == d.sess.tasks[u].key.host :: SharedConnection(d, t, u))
  {
    RunSplits(FRESH, events);
    RunKeepsCoupled(FRESH, events);
    C.EveryInterleaving(ConnEvents(events));
    S.EveryHistory(SessEvents(events));
    var d := Run(FRESH, events).value;
    assert forall t | t in d.sess.tasks :: CoupledAt(d, t);
    forall t, u | t in d.sess.tasks && u in d.sess.tasks && d.sess.tasks[t].pc.Running? && d.sess.tasks[u].pc.Running?
        && d.sess.tasks[t].key.host == d.sess.tasks[u].key.host
      ensures SharedConnection(d, t, u)
    {
      assert CoupledAt(d, t) && CoupledAt(d, u);
    }
  }

  ghost predicate SharedConnection(d: State, t: nat, u: nat) {
    && t in d.cache.tasks && u in d.cache.tasks && d.cache.tasks[t].pc.Using? && d.cache.tasks[u].pc.Using?
    && (d.cache.tasks[t].pc.conn !in d.cache.closed && d.cache.tasks[u].pc.conn !in d.cache.closed
        ==> d.cache.tasks[t].pc.conn == d.cache.tasks[u].pc.conn
            && d.cache.tasks[t].host in d.cache.hosts
            && d.cache.hosts[d.cache.tasks[t].host] == d.cache.tasks[t].pc.conn)
  }

  // -- no command waits in vain -----------------------------------------------

  /** What task `u` can do next: its own next step in its session, or first the
      one that lets its connection go. */
  function NextOf(d: State, u: nat, outcome: S.Outcome): Event
    requires u in d.sess.tasks && S.Holds(d.sess.tasks[u].pc)
  {
    var pc := d.sess.tasks[u].pc;
    if !pc.Finished? || u !in d.cache.tasks || d.cache.tasks[u].pc.Ended? then Sess(S.NextOf(u, pc, outcome))
    else if d.cache.tasks[u].pc.Failing? then Conn(C.Evict(u))
    else Conn(C.Finish(u, pc.outcome.Failed?))
  }

  /** In every run a command that waits for its session can go on, or the one of
      the same session that holds the lock can, whatever its execution comes to. */
  lemma SessionMovesOn(events: seq<Event>, t: nat, outcome: S.Outcome)
    requires Run(FRESH, events).Some?
    requires var d := Run(FRESH, events).value; t in d.sess.tasks && d.sess.tasks[t].pc.Queued?
    ensures var d := Run(FRESH, events).value;
            var b := d.sess.tasks[t].pc.b;
            if b in d.sess.holder
            then && d.sess.holder[b] in d.sess.tasks && S.Holds(d.sess.tasks[d.sess.holder[b]].pc)
                 && d.sess.tasks[d.sess.holder[b]].key == d.sess.tasks[t].key
                 && Enabled(d, NextOf(d, d.sess.holder[b], outcome))
            else Enabled(d, Sess(S.Lock(t)))
  {
    RunSplits(FRESH, events);
    RunKeepsCoupled(FRESH, events);
    S.RunKeepsInv(S.EMPTY, SessEvents(events));
    var d := Run(FRESH, events).value;
    if d.sess.tasks[t].pc.b in d.sess.holder {
      S.HeldByOwnSession(d.sess, t);
      HolderMoves(d, d.sess.holder[d.sess.tasks[t].pc.b], outcome);
    }
  }

  lemma HolderMoves(d: State, u: nat, outcome: S.Outcome)
    requires Coupled(d) && S.Inv(d.sess) && u in d.sess.tasks && S.Holds(d.sess.tasks[u].pc)
    ensures Enabled(d, NextOf(d, u, outcome))
  {
    assert CoupledAt(d, u);
    assert S.TaskInv(d.sess, u) && S.KeyInv(d.sess, d.sess.tasks[u].key);
  }
}
