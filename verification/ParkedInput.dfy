/** An interrupt sent while the forwarder is parked in a write on a full SSH
    window: it must still reach the out-of-band request. It does as long as the
    daemon's frame reader gets to it, and that depends on the room left in the
    stdin lane. */
module ParkedInput {
  import opened Prelude
  import opened StdinPipeline
  import FC = FrameCodec
  import S = SignalDelivery

  /** The frames the daemon's frame reader has still to hand on. */
  function Unread(p: Pipeline): seq<Frame> {
    p.reader.hold + p.client.ipc
  }

  function IntOf(s: FC.Signal): nat {
    if s.Int? then 1 else 0
  }

  function Ints(q: seq<FC.Signal>): nat {
    if q == [] then 0 else IntOf(q[0]) + Ints(q[1..])
  }

  /** The interrupts requested out of band, and those past the frame reader. */
  function Cleared(p: Pipeline): nat {
    |p.engine.oob| + Ints(p.engine.sigLane) + Ints(p.reader.ctrl)
  }

  lemma {:induction false} IntsConcat(a: seq<FC.Signal>, b: seq<FC.Signal>)
    ensures Ints(a + b) == Ints(a) + Ints(b)
  {
    if a == [] {
      assert a + b == b;
    } else {
      FrontOfConcat(a, b);
      IntsConcat(a[1..], b);
    }
  }

  lemma IntsOne(a: seq<FC.Signal>, s: FC.Signal)
    ensures Ints(a + [s]) == Ints(a) + IntOf(s)
  {
    IntsConcat(a, [s]);
    assert [s][1..] == [];
  }

  // -- what the frame reader lets through -------------------------------------

  /** The interrupts in front of the first stdin frame for which `room` places
      in the lane are too few. */
  function FrontInts(q: seq<Frame>, room: nat): nat {
    if q == [] then 0
    else if q[0].Sig? then IntOf(q[0].signal) + FrontInts(q[1..], room)
    else if room == 0 then 0
    else FrontInts(q[1..], room - 1)
  }

  function Stdins(q: seq<Frame>): nat {
    |StdinOf(q)|
  }

  lemma {:induction false} FrontStays(q: seq<Frame>, more: seq<Frame>, room: nat)
    requires Stdins(q) > room
    ensures FrontInts(q + more, room) == FrontInts(q, room) && Stdins(q + more) > room
  {
    FrontOfConcat(q, more);
    if q[0].Sig? {
      FrontStays(q[1..], more, room);
    } else if room > 0 {
      FrontStays(q[1..], more, room - 1);
    }
  }

  lemma {:induction false} FrontFew(q: seq<Frame>, room: nat, k: nat)
    requires k < |q| && q[k] == Sig(FC.Int) && Stdins(q[..k]) > room
    ensures FrontInts(q, room) < Ints(SigsOf(q[..k + 1]))
  {
    assert k > 0 && q[..k][0] == q[0] && q[..k][1..] == q[1..][..k - 1];
    assert q[..k + 1][0] == q[0] && q[..k + 1][1..] == q[1..][..k];
    IntsConcat(HeadSigs(q[0]), SigsOf(q[1..][..k]));
    if q[0].Sig? {
      IntsOne([], q[0].signal);
      assert [] + [q[0].signal] == [q[0].signal];
      FrontFew(q[1..], room, k - 1);
    } else if room > 0 {
      FrontFew(q[1..], room - 1, k - 1);
    } else {
      IntAmong(q[1..], k - 1);
    }
  }

  lemma {:induction false} IntAmong(q: seq<Frame>, k: nat)
    requires k < |q| && q[k] == Sig(FC.Int)
    ensures Ints(SigsOf(q[..k + 1])) > 0
  {
    assert q[..k + 1] == q[..k] + [q[k]];
    SigsOne(q[..k], q[k]);
    IntsOne(SigsOf(q[..k]), FC.Int);
  }

  /** The forwarder is in a write, and more stdin frames are unread than the
      lane has places for. */
  ghost predicate Blocked(p: Pipeline) {
    |p.reader.lane| <= LANE && p.engine.hold != [] && Stdins(Unread(p)) > LANE - |p.reader.lane|
  }

  /** The most interrupts that can be requested out of band then. */
  function Limit(p: Pipeline): nat
    requires |p.reader.lane| <= LANE
  {
    Cleared(p) + FrontInts(Unread(p), LANE - |p.reader.lane|)
  }

  function Adds(e: Event): seq<Frame> {
    match e
    case ClientRead(d) => [Data(d)]
    case ClientEof => [Eof]
    case ClientSignal(s) => [Sig(s)]
    case _ => []
  }

  lemma UnreadKept(p: Pipeline, e: Event)
    requires Enabled(p, e) && !e.ReaderPut? && !e.ReaderSeesEnd?
    ensures Unread(Next(p, e)) == Unread(p) + Adds(e)
  {
    if e.ReaderTake? {
      assert p.client.ipc == [p.client.ipc[0]] + p.client.ipc[1..];
      Assoc(p.reader.hold, [p.client.ipc[0]], p.client.ipc[1..]);
    } else if Adds(e) == [] {
      assert Unread(p) + [] == Unread(p);
    } else {
      Assoc(p.reader.hold, p.client.ipc, Adds(e));
    }
  }

  lemma UnreadPut(p: Pipeline)
    requires BoundsInv(p) && Enabled(p, ReaderPut)
    ensures Unread(p) == [p.reader.hold[0]] + Unread(Next(p, ReaderPut))
  {
    assert p.reader.hold == [p.reader.hold[0]] && p.reader.hold[1..] == [];
  }

  /** Only a put clears more interrupts; a full signal lane loses them. */
  lemma ClearedStep(p: Pipeline, e: Event)
    requires Enabled(p, e)
    ensures var more := if e.ReaderPut? && p.reader.hold[0].Sig? then IntOf(p.reader.hold[0].signal) else 0;
            && Cleared(Next(p, e)) <= Cleared(p) + more
            && (|p.engine.sigLane| < SIGNALS || !e.LoopSignal? ==> Cleared(Next(p, e)) == Cleared(p) + more)
  {
    match e {
      case ReaderPut =>
        if p.reader.hold[0].Sig? {
          IntsOne(p.reader.ctrl, p.reader.hold[0].signal);
        }
      case LoopSignal => IntsOne(p.engine.sigLane, p.reader.ctrl[0]);
      case _ =>
    }
  }

  lemma BlockedStep(p: Pipeline, e: Event)
    requires BoundsInv(p) && Blocked(p) && Enabled(p, e) && !e.FwdSent?
    ensures Blocked(Next(p, e)) && Limit(Next(p, e)) <= Limit(p)
  {
    ClearedStep(p, e);
    if e.ReaderPut? {
      UnreadPut(p);
      assert Unread(p)[1..] == Unread(Next(p, e));
    } else {
      UnreadKept(p, e);
      FrontStays(Unread(p), Adds(e), LANE - |p.reader.lane|);
    }
  }

  lemma {:induction false} BlockedRun(p: Pipeline, events: seq<Event>)
    requires BoundsInv(p) && Blocked(p) && FwdSent !in events && Run(p, events).Some?
    ensures |Run(p, events).value.engine.oob| <= Limit(p)
    decreases |events|
  {
    if events != [] {
      BlockedStep(p, events[0]);
      BoundsKept(p, events[0]);
      BlockedRun(Next(p, events[0]), events[1..]);
    }
  }

  /** Without a frame reader only what it has passed on goes out, and without a
      sender nothing does. */
  lemma {:induction false} TaskGoneRun(p: Pipeline, events: seq<Event>)
    requires Run(p, events).Some?
    ensures Reader in p.down ==> |Run(p, events).value.engine.oob| <= Cleared(p)
    ensures Forwarder in p.down ==> Run(p, events).value.engine.oob == p.engine.oob
    decreases |events|
  {
    if events != [] {
      ClearedStep(p, events[0]);
      TaskGoneRun(Next(p, events[0]), events[1..]);
    }
  }

  // -- what goes out ----------------------------------------------------------

  /** A run in which the forwarder's write does not complete. */
  ghost predicate Parks(p: Pipeline, q: Pipeline) {
    exists events :: FwdSent !in events && Run(p, events) == Some(q)
  }

  lemma ParksSame(p: Pipeline)
    ensures Parks(p, p)
  {
    assert Run(p, []) == Some(p);
  }

  lemma ParksStep(p: Pipeline, e: Event, q: Pipeline)
    requires Enabled(p, e) && !e.FwdSent? && Parks(Next(p, e), q)
    ensures Parks(p, q)
  {
    var events :| FwdSent !in events && Run(Next(p, e), events) == Some(q);
    assert ([e] + events)[1..] == events;
    assert FwdSent !in [e] + events;
    assert Run(p, [e] + events) == Some(q);
  }

  lemma ParksOn(p: Pipeline, q: Pipeline, r: Pipeline)
    requires Parks(p, q) && Parks(q, r)
    ensures Parks(p, r)
  {
    var events :| FwdSent !in events && Run(p, events) == Some(q);
    ParksAlong(p, events, r);
  }

  lemma {:induction false} ParksAlong(p: Pipeline, events: seq<Event>, r: Pipeline)
    requires FwdSent !in events && Run(p, events).Some? && Parks(Run(p, events).value, r)
    ensures Parks(p, r)
    decreases |events|
  {
    if events != [] {
      ParksAlong(Next(p, events[0]), events[1..], r);
      ParksStep(p, events[0], r);
    }
  }

  /** Both tasks on the way run. */
  ghost predicate Serving(p: Pipeline) {
    BoundsInv(p) && Reader !in p.down && Forwarder !in p.down
  }

  /** Nothing was cleared or lost, and the reader's side is the same. */
  ghost predicate SideSame(p: Pipeline, q: Pipeline) {
    && Serving(q) && Parks(p, q) && q.down == p.down && Cleared(q) == Cleared(p)
    && Unread(q) == Unread(p) && q.reader.lane == p.reader.lane
  }

  lemma SideStep(p: Pipeline, e: Event)
    requires Serving(p) && Enabled(p, e) && (e.SenderSignal? || e.ReaderTake? || e.LoopSignal?)
    requires e.LoopSignal? ==> |p.engine.sigLane| < SIGNALS
    ensures SideSame(p, Next(p, e))
  {
    ParksSame(Next(p, e));
    ParksStep(p, e, Next(p, e));
    BoundsKept(p, e);
    ClearedStep(p, e);
    UnreadKept(p, e);
    assert Unread(p) + [] == Unread(p);
  }

  lemma SideOn(p: Pipeline, q: Pipeline, r: Pipeline)
    requires SideSame(p, q) && SideSame(q, r)
    ensures SideSame(p, r)
  {
    ParksOn(p, q, r);
  }

  /** The sender empties its lane. */
  lemma {:induction false} SenderClears(p: Pipeline) returns (q: Pipeline)
    requires Serving(p)
    ensures SideSame(p, q) && q.engine.sigLane == [] && q.reader == p.reader
    decreases |p.engine.sigLane|
  {
    if p.engine.sigLane == [] {
      q := p;
      ParksSame(p);
    } else {
      SideStep(p, SenderSignal);
      q := SenderClears(Next(p, SenderSignal));
      SideOn(p, Next(p, SenderSignal), q);
    }
  }

  /** The main loop empties the control lane. */
  lemma {:induction false} LoopClears(p: Pipeline) returns (q: Pipeline)
    requires Serving(p)
    ensures SideSame(p, q) && q.reader.ctrl == [] && q.reader.hold == p.reader.hold
    decreases |p.reader.ctrl|
  {
    if p.reader.ctrl == [] {
      q := p;
      ParksSame(p);
    } else {
      var s := SenderClears(p);
      SideStep(s, LoopSignal);
      SideOn(p, s, Next(s, LoopSignal));
      q := LoopClears(Next(s, LoopSignal));
      SideOn(p, Next(s, LoopSignal), q);
    }
  }

  /** Everything past the frame reader goes out. */
  lemma AllOut(p: Pipeline) returns (q: Pipeline)
    requires Serving(p)
    ensures Parks(p, q) && |q.engine.oob| == Cleared(p)
  {
    var l := LoopClears(p);
    q := SenderClears(l);
    ParksOn(p, l, q);
  }

  /** The reader has its next frame in hand, and room for it if it is a signal. */
  lemma InHand(p: Pipeline) returns (q: Pipeline)
    requires Serving(p) && Unread(p) != []
    ensures SideSame(p, q) && q.reader.ctrl == [] && q.reader.hold == [Unread(p)[0]]
  {
    q := LoopClears(p);
    if q.reader.hold == [] {
      var l := q;
      assert Unread(l) == l.client.ipc;
      SideStep(l, ReaderTake);
      q := Next(l, ReaderTake);
      SideOn(p, l, q);
    }
    assert Unread(q)[0] == q.reader.hold[0];
  }

  /** `q` is `p` with the next frame handed on, nothing lost. */
  ghost predicate HandedOn(p: Pipeline, q: Pipeline) {
    && Parks(p, q) && q.down == p.down
    && Unread(p) != [] && Unread(p) == [Unread(p)[0]] + Unread(q)
    && Cleared(q) == Cleared(p) + Ints(HeadSigs(Unread(p)[0]))
    && |q.reader.lane| == |p.reader.lane| + |HeadStdin(Unread(p)[0])|
  }

  lemma PutOn(p: Pipeline) returns (q: Pipeline)
    requires Serving(p) && p.reader.hold != [] && p.reader.ctrl == []
    requires p.reader.hold[0].Sig? || |p.reader.lane| < LANE
    ensures Serving(q) && HandedOn(p, q)
  {
    q := Next(p, ReaderPut);
    UnreadPut(p);
    ClearedStep(p, ReaderPut);
    BoundsKept(p, ReaderPut);
    ParksSame(q);
    ParksStep(p, ReaderPut, q);
    var x := p.reader.hold[0];
    assert Unread(p)[0] == x;
    if x.Sig? {
      IntsOne([], x.signal);
      assert [] + [x.signal] == [x.signal];
    }
  }

  lemma HandOn(p: Pipeline) returns (q: Pipeline)
    requires Serving(p) && Unread(p) != [] && (Unread(p)[0].Sig? || |p.reader.lane| < LANE)
    ensures Serving(q) && HandedOn(p, q)
  {
    var h := InHand(p);
    q := PutOn(h);
    ParksOn(p, h, q);
  }

  /** The interrupts out once the one at place `k` is. */
  function Due(p: Pipeline, k: nat): nat
    requires k < |Unread(p)|
  {
    Cleared(p) + Ints(SigsOf(Unread(p)[..k + 1]))
  }

  /** Nothing keeps the frame reader from the frame at place `k`. */
  ghost predicate ReaderGetsTo(p: Pipeline, k: nat)
    requires k < |Unread(p)|
  {
    Reader !in p.down && Forwarder !in p.down && |p.reader.lane| + Stdins(Unread(p)[..k]) <= LANE
  }

  lemma HeadFirst(q: seq<Frame>, rest: seq<Frame>, k: nat)
    requires 0 < k <= |q| && q == [q[0]] + rest
    ensures Stdins(q[..k]) == |HeadStdin(q[0])| + Stdins(rest[..k - 1])
    ensures Ints(SigsOf(q[..k])) == Ints(HeadSigs(q[0])) + Ints(SigsOf(rest[..k - 1]))
  {
    assert q[..k][0] == q[0] && q[..k][1..] == rest[..k - 1];
    IntsConcat(HeadSigs(q[0]), SigsOf(rest[..k - 1]));
  }

  lemma DueLast(p: Pipeline, u: Pipeline, queue: seq<Frame>, rest: seq<Frame>)
    requires HandedOn(p, u) && queue == Unread(p) && rest == Unread(u)
    ensures Due(p, 0) == Cleared(u)
  {
    HeadFirst(queue, rest, 1);
    assert rest[..0] == [];
  }

  lemma DueNext(p: Pipeline, u: Pipeline, queue: seq<Frame>, rest: seq<Frame>, k: nat)
    requires HandedOn(p, u) && queue == Unread(p) && rest == Unread(u) && 0 < k < |queue|
    ensures k - 1 < |rest| && rest[k - 1] == queue[k] && Due(p, k) == Due(u, k - 1)
  {
    HeadFirst(queue, rest, k + 1);
  }

  lemma Nearer(p: Pipeline, u: Pipeline, queue: seq<Frame>, rest: seq<Frame>, k: nat)
    requires HandedOn(p, u) && queue == Unread(p) && rest == Unread(u) && 0 < k < |queue| && ReaderGetsTo(p, k)
    ensures ReaderGetsTo(u, k - 1)
  {
    HeadFirst(queue, rest, k);
  }

  /** One frame further: the one at `k` has one fewer in front of it. */
  lemma Advance(p: Pipeline, k: nat) returns (u: Pipeline)
    requires BoundsInv(p) && k < |Unread(p)| && Unread(p)[k].Sig? && ReaderGetsTo(p, k)
    ensures BoundsInv(u) && Parks(p, u)
    ensures k == 0 ==> Serving(u) && Due(p, k) == Cleared(u)
    ensures k > 0 ==> k - 1 < |Unread(u)| && Unread(u)[k - 1].Sig? && ReaderGetsTo(u, k - 1)
    ensures k > 0 ==> Due(p, k) == Due(u, k - 1)
  {
    HeadFits(p, k);
    u := HandOn(p);
    if k == 0 {
      DueLast(p, u, Unread(p), Unread(u));
    } else {
      DueNext(p, u, Unread(p), Unread(u), k);
      Nearer(p, u, Unread(p), Unread(u), k);
    }
  }

  /** A signal at the head, or a place for the stdin frame there. */
  lemma HeadFits(p: Pipeline, k: nat)
    requires k < |Unread(p)| && Unread(p)[k].Sig? && ReaderGetsTo(p, k)
    ensures Unread(p)[0].Sig? || |p.reader.lane| < LANE
  {
    if k > 0 {
      HeadFirst(Unread(p), Unread(p)[1..], k);
    }
  }

  lemma {:induction false} GoOut(p: Pipeline, k: nat) returns (q: Pipeline)
    requires BoundsInv(p) && k < |Unread(p)| && Unread(p)[k].Sig? && ReaderGetsTo(p, k)
    ensures Parks(p, q) && |q.engine.oob| == Due(p, k)
    decreases k
  {
    var u := Advance(p, k);
    if k == 0 {
      q := AllOut(u);
    } else {
      q := GoOut(u, k - 1);
    }
    ParksOn(p, u, q);
  }

  // -- exactly when -----------------------------------------------------------

  /** Some run with the write still parked requests the interrupt at place `k`
      out of band, behind the others in front of it. */
  ghost predicate GetsOut(p: Pipeline, k: nat)
    requires k < |Unread(p)|
  {
    exists q :: Parks(p, q) && Due(p, k) <= |q.engine.oob|
  }

  lemma NoPlace(p: Pipeline, queue: seq<Frame>, k: nat)
    requires BoundsInv(p) && p.engine.hold != [] && queue == Unread(p) && k < |queue| && queue[k] == Sig(FC.Int)
    requires |p.reader.lane| + Stdins(queue[..k]) > LANE
    ensures Blocked(p) && Limit(p) < Due(p, k)
  {
    assert queue == queue[..k] + queue[k..];
    ConcatStdin(queue[..k], queue[k..]);
    FrontFew(queue, LANE - |p.reader.lane|, k);
  }

  lemma StaysIn(p: Pipeline, k: nat, events: seq<Event>)
    requires BoundsInv(p) && p.engine.hold != [] && k < |Unread(p)| && Unread(p)[k] == Sig(FC.Int)
    requires !ReaderGetsTo(p, k) && FwdSent !in events && Run(p, events).Some?
    ensures |Run(p, events).value.engine.oob| < Due(p, k)
  {
    if Reader in p.down || Forwarder in p.down {
      IntAmong(Unread(p), k);
      TaskGoneRun(p, events);
    } else {
      NoPlace(p, Unread(p), k);
      BlockedRun(p, events);
    }
  }

  /** While the forwarder's write is parked, an interrupt that the frame reader
      has not handed on yet can still be requested out of band exactly when the
      reader and the sender run and the stdin lane has a place for every stdin
      frame in front of it. */
  lemma GetsOutExactly(room: Room, events: seq<Event>, p: Pipeline, k: nat)
    requires Run(Start(room), events) == Some(p) && p.engine.hold != []
    requires k < |Unread(p)| && Unread(p)[k] == Sig(FC.Int)
    ensures GetsOut(p, k) <==> ReaderGetsTo(p, k)
  {
    StartInv(room);
    RunKeepsInv(Start(room), events);
    if ReaderGetsTo(p, k) {
      var q := GoOut(p, k);
    } else if GetsOut(p, k) {
      var q :| Parks(p, q) && Due(p, k) <= |q.engine.oob|;
      var more :| FwdSent !in more && Run(p, more) == Some(q);
      StaysIn(p, k, more);
    }
  }

  // -- a full lane ------------------------------------------------------------

  /** `n` stdin frames wait in the lane behind the one that is being written. */
  function Behind(room: Room, d: Bytes, n: nat): Pipeline {
    var s := Start(room);
    s.(client := s.client.(sent := Flatten(seq(n + 1, _ => d))),
       reader := s.reader.(lane := seq(n, _ => Data(d))), engine := s.engine.(hold := [Data(d)]))
  }

  /** The client sends one more stdin frame, and the frame reader has it. */
  function OneMore(p: Pipeline, d: Bytes): Pipeline {
    p.(client := p.client.(sent := p.client.sent + d), reader := p.reader.(hold := [Data(d)]))
  }

  lemma Sends(start: Pipeline, p: Pipeline, d: Bytes)
    requires S.Reaches(start, p) && d != [] && p.client.open && p.client.ipc == [] && p.room.ipc > 0
    requires Reader !in p.down && p.reader.hold == []
    ensures S.Reaches(start, OneMore(p, d))
  {
    var q := Next(p, ClientRead(d));
    S.ReachStep(start, p, ClientRead(d));
    S.ReachStep(start, q, ReaderTake);
    assert Next(q, ReaderTake) == OneMore(p, d);
  }

  lemma FirstIsWritten(room: Room, d: Bytes)
    requires room.ipc > 0 && d != []
    ensures S.Reaches(Start(room), Behind(room, d, 0))
  {
    var s := Start(room);
    S.ReachSame(s);
    Sends(s, s, d);
    var p := OneMore(s, d);
    var q := Next(p, ReaderPut);
    S.ReachStep(s, p, ReaderPut);
    S.ReachStep(s, q, FwdStdin);
    FlattenOne(d);
    assert seq(1, _ => d) == [d] && [] + d == d;
    assert Next(q, FwdStdin) == Behind(room, d, 0);
  }

  lemma {:induction false} LaneFills(room: Room, d: Bytes, n: nat)
    requires room.ipc > 0 && d != [] && n <= LANE
    ensures S.Reaches(Start(room), Behind(room, d, n))
  {
    if n == 0 {
      FirstIsWritten(room, d);
    } else {
      LaneFills(room, d, n - 1);
      var p := OneMore(Behind(room, d, n - 1), d);
      Sends(Start(room), Behind(room, d, n - 1), d);
      S.ReachStep(Start(room), p, ReaderPut);
      assert seq(n + 1, _ => d) == seq(n, _ => d) + [d];
      FlattenConcat(seq(n, _ => d), [d]);
      FlattenOne(d);
      assert seq(n, _ => Data(d)) == seq(n - 1, _ => Data(d)) + [Data(d)];
      assert Next(p, ReaderPut) == Behind(room, d, n);
    }
  }

  /** Behind a full lane an interrupt waits for the forwarder, in every run. */
  lemma FullLaneHoldsInterrupt(room: Room, d: Bytes)
    requires room.ipc > 0 && d != []
    ensures exists p :: S.Reaches(Start(room), p) && p.engine.hold != [] && p.down == {}
                        && Unread(p) == [Data(d), Sig(FC.Int)] && !GetsOut(p, 1)
  {
    LaneFills(room, d, LANE);
    Sends(Start(room), Behind(room, d, LANE), d);
    var p := OneMore(Behind(room, d, LANE), d);
    S.ReachStep(Start(room), p, ClientSignal(FC.Int));
    var q := Next(p, ClientSignal(FC.Int));
    assert Unread(q) == [Data(d), Sig(FC.Int)];
    assert Unread(q)[..1] == [Data(d)] && StdinOf([Data(d)]) == [Data(d)] + StdinOf([]);
    var events :| Run(Start(room), events) == Some(q);
    GetsOutExactly(room, events, q, 1);
  }
}
