/** When a signal still reaches its goal: in band through serve's router to the
    process group, out of band past a client-frame reader whose stdin lane may
    be full. */
module SignalDelivery {
  import opened Prelude
  import opened StdinPipeline
  import FC = FrameCodec

  // -- behind the forwarder ---------------------------------------------------

  /** The stdin frames the forwarder has passed on, first to be taken first. */
  function Passed(p: Pipeline): seq<Frame> {
    StdinOf(p.serve.lane) + StdinOf(p.serve.hold) + StdinOf(p.engine.ssh) + StdinOf(p.engine.hold)
  }

  /** An Eof is the last of them, and nothing follows one that was taken. */
  ghost predicate PassedInv(p: Pipeline) {
    var q := Passed(p);
    && (forall i | 0 <= i < |q| - 1 :: !q[i].Eof?)
    && (p.engine.open ==> !p.child.taken && !HasEof(q))
    && (p.child.taken ==> q == [])
    && (Pump in p.down ==> p.child.eof)
  }

  lemma {:induction false} NoStdin(q: seq<Frame>)
    requires StdinOf(q) == []
    ensures forall k | 0 <= k < |q| :: q[k].Sig?
  {
    if q != [] {
      NoStdin(q[1..]);
      assert forall k | 1 <= k < |q| :: q[k] == q[1..][k - 1];
    }
  }

  /** Steps behind the forwarder's reading point only move frames along. */
  lemma PassedMoves(p: Pipeline, e: Event)
    requires BoundsInv(p) && LanesInv(p) && Enabled(p, e) && !e.FwdStdin? && !e.PumpTake?
    ensures Passed(Next(p, e)) == Passed(p)
  {
    match e {
      case FwdSignal => SigInvisible(p.engine.hold, p.engine.inband[0]);
      case FwdSent => Shift(StdinOf(p.serve.lane) + StdinOf(p.serve.hold), p.engine.ssh, p.engine.hold);
      case RouteTake => Shift(StdinOf(p.serve.lane), p.serve.hold, p.engine.ssh);
      case RoutePut =>
        assert p.serve.hold == [p.serve.hold[0]] && p.serve.hold[1..] == [];
        if p.serve.hold[0].Sig? {
          SigInvisible([], p.serve.hold[0].signal);
        } else {
          Shift([], p.serve.lane, p.serve.hold);
        }
      case _ =>
    }
  }

  lemma PassedGrows(p: Pipeline)
    requires LanesInv(p) && Enabled(p, FwdStdin)
    ensures Passed(Next(p, FwdStdin)) == Passed(p) + [p.reader.lane[0]]
  {
    StdinOne(p.engine.hold, p.reader.lane[0]);
    var front := StdinOf(p.serve.lane) + StdinOf(p.serve.hold) + StdinOf(p.engine.ssh);
    Assoc(front, StdinOf(p.engine.hold), [p.reader.lane[0]]);
  }

  lemma PassedShrinks(p: Pipeline)
    requires LanesInv(p) && Enabled(p, PumpTake)
    ensures Passed(p) == [p.serve.lane[0]] + Passed(Next(p, PumpTake))
  {
    var x, q := [p.serve.lane[0]], p.serve.lane[1..];
    assert p.serve.lane == x + q;
    StdinOne(q, p.serve.lane[0]);
    var a := StdinOf(q);
    Assoc(x, a, StdinOf(p.serve.hold));
    a := a + StdinOf(p.serve.hold);
    Assoc(x, a, StdinOf(p.engine.ssh));
    a := a + StdinOf(p.engine.ssh);
    Assoc(x, a, StdinOf(p.engine.hold));
  }

  lemma GrownKept(p: Pipeline)
    requires LanesInv(p) && PassedInv(p) && Enabled(p, FwdStdin)
    ensures PassedInv(Next(p, FwdStdin))
  {
    PassedGrows(p);
    EofAppended(Passed(p), p.reader.lane[0]);
  }

  lemma EofBehind(x: Frame, rest: seq<Frame>)
    requires forall i | 0 <= i < |[x] + rest| - 1 :: !([x] + rest)[i].Eof?
    ensures forall i | 0 <= i < |rest| - 1 :: !rest[i].Eof?
    ensures x.Eof? ==> rest == []
    ensures HasEof(rest) || x.Eof? ==> HasEof([x] + rest)
  {
    assert forall i | 0 <= i < |rest| :: ([x] + rest)[i + 1] == rest[i];
    assert ([x] + rest)[0] == x;
  }

  lemma ShrunkKept(p: Pipeline)
    requires LanesInv(p) && PassedInv(p) && Enabled(p, PumpTake)
    ensures PassedInv(Next(p, PumpTake))
  {
    PassedShrinks(p);
    EofBehind(p.serve.lane[0], Passed(Next(p, PumpTake)));
  }

  lemma PassedKept(p: Pipeline, e: Event)
    requires BoundsInv(p) && LanesInv(p) && PassedInv(p) && Enabled(p, e)
    ensures PassedInv(Next(p, e))
  {
    if e.FwdStdin? {
      GrownKept(p);
    } else if e.PumpTake? {
      ShrunkKept(p);
    } else {
      PassedMoves(p, e);
    }
  }

  // -- the queue at the router ------------------------------------------------

  function Framed(signals: seq<FC.Signal>): seq<Frame> {
    if signals == [] then [] else [Sig(signals[0])] + Framed(signals[1..])
  }

  /** What the router will meet, in that order: its frame in hand, the SSH
      stream, the forwarder's frame and the in-band signals before it. */
  function Queue(p: Pipeline): seq<Frame> {
    p.serve.hold + p.engine.ssh + p.engine.hold + Framed(p.engine.inband)
  }

  /** The signals handed to the supervisor. */
  function Handed(p: Pipeline): seq<FC.Signal> {
    p.serve.killed + p.serve.ctrl
  }

  lemma {:induction false} FramedLast(signals: seq<FC.Signal>, s: FC.Signal)
    ensures Framed(signals + [s]) == Framed(signals) + [Sig(s)]
  {
    if signals == [] {
      assert [s][1..] == [] && [] + [s] == [s];
    } else {
      FrontOfConcat(signals, [s]);
      FramedLast(signals[1..], s);
      Assoc([Sig(signals[0])], Framed(signals[1..]), [Sig(s)]);
    }
  }

  /** A frame moved from the head of one part to the end of the one before. */
  lemma MoveOver(front: seq<Frame>, a: seq<Frame>, b: seq<Frame>)
    requires b != []
    ensures front + a + b == front + (a + [b[0]]) + b[1..]
  {
    assert b == [b[0]] + b[1..];
    Assoc(front, a, [b[0]]);
    Assoc(front + a, [b[0]], b[1..]);
  }

  /** The frames one event adds at the end of the queue. */
  function Joins(p: Pipeline, e: Event): seq<Frame>
    requires Enabled(p, e)
  {
    if e.FwdStdin? then [p.reader.lane[0]]
    else if e.SenderSignal? && |p.engine.inband| < SIGNALS then [Sig(p.engine.sigLane[0])]
    else []
  }

  lemma QueuePasses(p: Pipeline, e: Event)
    requires BoundsInv(p) && Enabled(p, e) && (e.RouteTake? || e.FwdSent? || e.FwdSignal?)
    ensures Queue(Next(p, e)) == Queue(p)
  {
    var f := Framed(p.engine.inband);
    match e {
      case RouteTake =>
        MoveOver([], p.serve.hold, p.engine.ssh);
        var hold := p.serve.hold + [p.engine.ssh[0]];
        assert [] + p.serve.hold == p.serve.hold && [] + hold == hold;
      case FwdSent => MoveOver(p.serve.hold, p.engine.ssh, p.engine.hold);
      case FwdSignal => MoveOver(p.serve.hold + p.engine.ssh, p.engine.hold, f);
    }
  }

  lemma QueueJoined(p: Pipeline, e: Event)
    requires BoundsInv(p) && Enabled(p, e) && (e.FwdStdin? || e.SenderSignal?)
    ensures Queue(Next(p, e)) == Queue(p) + Joins(p, e)
  {
    var front := p.serve.hold + p.engine.ssh;
    if e.FwdStdin? {
      assert Framed(p.engine.inband) == [];
      Assoc(front, p.engine.hold, [p.reader.lane[0]]);
      assert Queue(p) == front + p.engine.hold;
    } else if |p.engine.inband| < SIGNALS {
      FramedLast(p.engine.inband, p.engine.sigLane[0]);
      Assoc(front + p.engine.hold, Framed(p.engine.inband), [Sig(p.engine.sigLane[0])]);
    } else {
      assert Queue(p) + [] == Queue(p);
    }
  }

  lemma QueuePut(p: Pipeline)
    requires BoundsInv(p) && Enabled(p, RoutePut)
    ensures Queue(p) == [p.serve.hold[0]] + Queue(Next(p, RoutePut))
    ensures Handed(Next(p, RoutePut)) == Handed(p) + HeadSigs(p.serve.hold[0])
  {
    var x := [p.serve.hold[0]];
    assert p.serve.hold == x && p.serve.hold[1..] == [];
    assert [] + p.engine.ssh == p.engine.ssh;
    Assoc(x, p.engine.ssh, p.engine.hold);
    Assoc(x, p.engine.ssh + p.engine.hold, Framed(p.engine.inband));
    if x[0].Sig? {
      Assoc(p.serve.killed, p.serve.ctrl, [x[0].signal]);
    } else {
      assert Handed(p) + [] == Handed(p);
    }
  }

  lemma HandedKept(p: Pipeline, e: Event)
    requires Enabled(p, e) && !e.RoutePut?
    ensures Handed(Next(p, e)) == Handed(p)
  {
    if e.ServeKill? {
      var c := p.serve.ctrl;
      assert c == [c[0]] + c[1..];
      Assoc(p.serve.killed, [c[0]], c[1..]);
    }
  }

  lemma QueueElse(p: Pipeline, e: Event)
    requires BoundsInv(p) && Enabled(p, e) && !e.RoutePut?
    ensures Queue(Next(p, e)) == Queue(p) + Joins(p, e)
  {
    if e.RouteTake? || e.FwdSent? || e.FwdSignal? {
      QueuePasses(p, e);
      assert Queue(p) + [] == Queue(p);
    } else if e.FwdStdin? || e.SenderSignal? {
      QueueJoined(p, e);
    } else {
      assert Queue(p) + [] == Queue(p);
    }
  }

  // -- what can no longer be delivered ----------------------------------------

  /** The signals in front of the first stdin frame. */
  function SigFront(q: seq<Frame>): seq<FC.Signal> {
    if q == [] || !q[0].Sig? then [] else [q[0].signal] + SigFront(q[1..])
  }

  ghost predicate HasStdin(q: seq<Frame>) {
    exists k | 0 <= k < |q| :: !q[k].Sig?
  }

  lemma {:induction false} SigFrontStays(q: seq<Frame>, more: seq<Frame>)
    requires HasStdin(q)
    ensures SigFront(q + more) == SigFront(q) && HasStdin(q + more)
  {
    var k :| 0 <= k < |q| && !q[k].Sig?;
    assert (q + more)[k] == q[k];
    if q[0].Sig? {
      assert q[1..][k - 1] == q[k];
      FrontOfConcat(q, more);
      SigFrontStays(q[1..], more);
    }
  }

  /** The pump is gone and a stdin frame is on its way to the router. */
  ghost predicate Barred(p: Pipeline) {
    p.child.eof && HasStdin(Queue(p))
  }

  /** All that is ever delivered then: what was handed over, and the signals in
      front of that frame. */
  function Last(p: Pipeline): seq<FC.Signal> {
    Handed(p) + SigFront(Queue(p))
  }

  lemma BarredStep(p: Pipeline, e: Event)
    requires BoundsInv(p) && Barred(p) && Enabled(p, e)
    ensures Barred(Next(p, e)) && Last(Next(p, e)) == Last(p)
  {
    if e.RoutePut? {
      QueuePut(p);
      var x, rest := p.serve.hold[0], Queue(Next(p, e));
      var k :| 0 <= k < |Queue(p)| && !Queue(p)[k].Sig?;
      assert Queue(p)[0] == x && rest[k - 1] == Queue(p)[k];
      assert Queue(p)[1..] == rest;
      Assoc(Handed(p), [x.signal], SigFront(rest));
    } else {
      QueueElse(p, e);
      HandedKept(p, e);
      SigFrontStays(Queue(p), Joins(p, e));
    }
  }

  lemma {:induction false} BarredRun(p: Pipeline, events: seq<Event>)
    requires BoundsInv(p) && Barred(p) && Run(p, events).Some?
    ensures Run(p, events).value.serve.killed <= Last(p)
    decreases |events|
  {
    if events == [] {
      Assoc(p.serve.killed, p.serve.ctrl, SigFront(Queue(p)));
    } else {
      BarredStep(p, events[0]);
      BoundsKept(p, events[0]);
      BarredRun(Next(p, events[0]), events[1..]);
    }
  }

  /** A router that has left hands nothing over any more. */
  lemma {:induction false} RouterGoneSilences(p: Pipeline, events: seq<Event>)
    requires Router in p.down && Run(p, events).Some?
    ensures Handed(Run(p, events).value) == Handed(p)
    decreases |events|
  {
    if events != [] {
      HandedKept(p, events[0]);
      RouterGoneSilences(Next(p, events[0]), events[1..]);
    }
  }

  /** What the SSH stream can still bring to the process group. */
  function FromStream(p: Pipeline): seq<FC.Signal> {
    Handed(p) + SigsOf(p.serve.hold + p.engine.ssh)
  }

  lemma StreamPut(p: Pipeline)
    requires BoundsInv(p) && Enabled(p, RoutePut)
    ensures FromStream(Next(p, RoutePut)) == FromStream(p)
  {
    QueuePut(p);
    var x := p.serve.hold;
    assert x == [x[0]] && x[1..] == [] && [] + p.engine.ssh == p.engine.ssh;
    ConcatSigs(x, p.engine.ssh);
    assert SigsOf(x) == HeadSigs(x[0]) + SigsOf([]);
    assert HeadSigs(x[0]) + [] == HeadSigs(x[0]);
    Assoc(Handed(p), HeadSigs(x[0]), SigsOf(p.engine.ssh));
  }

  lemma StreamElse(p: Pipeline, e: Event)
    requires BoundsInv(p) && Forwarder in p.down && Enabled(p, e) && !e.RoutePut?
    ensures FromStream(Next(p, e)) == FromStream(p)
  {
    HandedKept(p, e);
    if e.RouteTake? {
      MoveOver([], p.serve.hold, p.engine.ssh);
      assert [] + p.serve.hold == p.serve.hold;
      assert [] + Next(p, e).serve.hold == Next(p, e).serve.hold;
    }
  }

  /** Behind a forwarder that is gone, what the SSH stream holds is all. */
  lemma {:induction false} ForwarderGoneRun(p: Pipeline, events: seq<Event>)
    requires BoundsInv(p) && Forwarder in p.down && Run(p, events).Some?
    ensures Run(p, events).value.serve.killed <= FromStream(p)
    decreases |events|
  {
    if events == [] {
      Assoc(p.serve.killed, p.serve.ctrl, SigsOf(p.serve.hold + p.engine.ssh));
    } else {
      if events[0].RoutePut? { StreamPut(p); } else { StreamElse(p, events[0]); }
      BoundsKept(p, events[0]);
      ForwarderGoneRun(Next(p, events[0]), events[1..]);
    }
  }

  // -- what can ---------------------------------------------------------------

  ghost predicate Reaches(p: Pipeline, q: Pipeline) {
    exists events :: Run(p, events) == Some(q)
  }

  lemma ReachSame(p: Pipeline)
    ensures Reaches(p, p)
  {
    assert Run(p, []) == Some(p);
  }

  lemma {:induction false} RunBehind(p: Pipeline, a: seq<Event>, b: seq<Event>)
    requires Run(p, a).Some?
    ensures Run(p, a + b) == Run(Run(p, a).value, b)
    decreases |a|
  {
    if a == [] {
      assert a + b == b;
    } else {
      FrontOfConcat(a, b);
      RunBehind(Next(p, a[0]), a[1..], b);
    }
  }

  lemma ReachStep(p: Pipeline, q: Pipeline, e: Event)
    requires Reaches(p, q) && Enabled(q, e)
    ensures Reaches(p, Next(q, e))
  {
    var a :| Run(p, a) == Some(q);
    RunBehind(p, a, [e]);
    assert [e][1..] == [];
  }

  lemma ReachOn(p: Pipeline, q: Pipeline, r: Pipeline)
    requires Reaches(p, q) && Reaches(q, r)
    ensures Reaches(p, r)
  {
    var a :| Run(p, a) == Some(q);
    var b :| Run(q, b) == Some(r);
    RunBehind(p, a, b);
  }

  ghost predicate Sound(p: Pipeline) {
    BoundsInv(p) && LanesInv(p) && PassedInv(p) && p.room.ssh > 0
  }

  lemma SoundKept(p: Pipeline, e: Event)
    requires Sound(p) && Enabled(p, e)
    ensures Sound(Next(p, e))
  {
    BoundsKept(p, e);
    LanesKept(p, e);
    PassedKept(p, e);
  }

  lemma {:induction false} RunKeepsSound(p: Pipeline, events: seq<Event>)
    requires Sound(p) && Run(p, events).Some?
    ensures Sound(Run(p, events).value)
    decreases |events|
  {
    if events != [] {
      SoundKept(p, events[0]);
      RunKeepsSound(Next(p, events[0]), events[1..]);
    }
  }

  lemma ReachableSound(room: Room, p: Pipeline)
    requires Reaches(Start(room), p) && room.ssh > 0
    ensures Sound(p)
  {
    var events :| Run(Start(room), events) == Some(p);
    RunKeepsSound(Start(room), events);
  }

  /** Same hops, same end of the child's input. */
  ghost predicate Alike(p: Pipeline, q: Pipeline) {
    Sound(q) && Reaches(p, q) && q.down == p.down && q.child.eof == p.child.eof
  }

  lemma AlikeStep(p: Pipeline, e: Event)
    requires Sound(p) && Enabled(p, e) && Next(p, e).down == p.down && Next(p, e).child.eof == p.child.eof
    ensures Alike(p, Next(p, e))
  {
    ReachSame(p);
    ReachStep(p, p, e);
    SoundKept(p, e);
  }

  /** How many frames have passed the forwarder. */
  function Across(p: Pipeline): nat {
    |p.serve.hold| + |p.engine.ssh|
  }

  lemma TakeUp(p: Pipeline) returns (q: Pipeline)
    requires Sound(p) && Router !in p.down && p.serve.hold == [] && p.engine.ssh != []
    ensures Alike(p, q) && q.serve.hold == [Queue(p)[0]] && Queue(q) == Queue(p) && Handed(q) == Handed(p)
    ensures Across(q) == Across(p)
  {
    q := Next(p, RouteTake);
    AlikeStep(p, RouteTake);
    QueuePasses(p, RouteTake);
    HandedKept(p, RouteTake);
    assert q.serve.hold == [p.engine.ssh[0]];
    assert Queue(q)[0] == q.serve.hold[0];
  }

  lemma SendOver(p: Pipeline) returns (q: Pipeline)
    requires Sound(p) && Forwarder !in p.down && p.serve.hold == [] && p.engine.ssh == [] && p.engine.hold != []
    ensures Alike(p, q) && q.serve.hold == [] && q.engine.ssh != []
    ensures Queue(q) == Queue(p) && Handed(q) == Handed(p)
  {
    q := Next(p, FwdSent);
    AlikeStep(p, FwdSent);
    QueuePasses(p, FwdSent);
    HandedKept(p, FwdSent);
  }

  lemma PickUp(p: Pipeline) returns (q: Pipeline)
    requires Sound(p) && Forwarder !in p.down && p.serve.hold == [] && p.engine.ssh == [] && p.engine.hold == []
    requires p.engine.inband != []
    ensures Alike(p, q) && q.serve.hold == [] && q.engine.ssh == [] && q.engine.hold != []
    ensures Queue(q) == Queue(p) && Handed(q) == Handed(p)
  {
    q := Next(p, FwdSignal);
    AlikeStep(p, FwdSignal);
    QueuePasses(p, FwdSignal);
    HandedKept(p, FwdSignal);
  }

  lemma AlikeOn(p: Pipeline, q: Pipeline, r: Pipeline)
    requires Alike(p, q) && Alike(q, r)
    ensures Alike(p, r)
  {
    ReachOn(p, q, r);
  }

  /** The first frame of the queue comes into the router's hand. */
  lemma Bring(p: Pipeline) returns (q: Pipeline)
    requires Sound(p) && Router !in p.down && Queue(p) != [] && (Across(p) == 0 ==> Forwarder !in p.down)
    ensures Alike(p, q) && q.serve.hold == [Queue(p)[0]] && Queue(q) == Queue(p) && Handed(q) == Handed(p)
    ensures Across(p) > 0 ==> Across(q) == Across(p)
  {
    q := p;
    ReachSame(p);
    if p.serve.hold != [] {
      assert Queue(p)[0] == p.serve.hold[0];
      return;
    }
    if p.engine.ssh == [] {
      if p.engine.hold == [] {
        q := PickUp(q);
      }
      var r := SendOver(q);
      AlikeOn(p, q, r);
      q := r;
    }
    var r := TakeUp(q);
    AlikeOn(p, q, r);
    q := r;
  }

  /** Everything of the in-band way but the child's side is the same. */
  ghost predicate WaySame(p: Pipeline, q: Pipeline) {
    q.serve.hold == p.serve.hold && q.engine == p.engine && Handed(q) == Handed(p)
  }

  /** The pump writes what it holds. */
  lemma Emptied(p: Pipeline) returns (q: Pipeline)
    requires Sound(p) && !p.child.eof && Pump !in p.down
    ensures Alike(p, q) && WaySame(p, q) && q.serve == p.serve && q.child.hold == []
  {
    if p.child.hold == [] {
      q := p;
      ReachSame(p);
    } else {
      q := Next(p, PumpWrite(|p.child.hold|));
      AlikeStep(p, PumpWrite(|p.child.hold|));
    }
  }

  /** The pump takes a data frame from the lane. */
  lemma TookData(p: Pipeline) returns (q: Pipeline)
    requires Sound(p) && !p.child.eof && Pump !in p.down && p.child.hold == []
    requires p.serve.lane != [] && p.serve.lane[0].Data?
    ensures Alike(p, q) && WaySame(p, q) && |q.serve.lane| == |p.serve.lane| - 1
  {
    q := Next(p, PumpTake);
    AlikeStep(p, PumpTake);
  }

  /** In front of a stdin frame in the router's hand the lane holds data only. */
  lemma LaneHeadIsData(p: Pipeline)
    requires Sound(p) && p.serve.hold != [] && !p.serve.hold[0].Sig? && p.serve.lane != []
    ensures p.serve.lane[0].Data?
  {
    var lane, hold := StdinOf(p.serve.lane), StdinOf(p.serve.hold);
    assert p.serve.lane == [p.serve.lane[0]] + p.serve.lane[1..];
    StdinHead(p.serve.lane);
    StdinHead(p.serve.hold);
    assert lane[0] == p.serve.lane[0] && |hold| > 0;
    var q := Passed(p);
    assert |q| >= |lane| + |hold| && q[0] == lane[0];
  }

  /** The lane has room for the stdin frame in the router's hand. */
  lemma MakeRoom(p: Pipeline) returns (q: Pipeline)
    requires Sound(p) && p.serve.hold != [] && !p.serve.hold[0].Sig? && !p.child.eof
    ensures Alike(p, q) && WaySame(p, q) && |q.serve.lane| < SERVE_LANE
  {
    q := p;
    ReachSame(p);
    if |p.serve.lane| >= SERVE_LANE {
      LaneHeadIsData(p);
      var e := Emptied(p);
      q := TookData(e);
      AlikeOn(p, e, q);
    }
  }

  lemma CtrlRoom(p: Pipeline) returns (q: Pipeline)
    requires Sound(p)
    ensures Alike(p, q) && WaySame(p, q) && |q.serve.ctrl| < CTRL && q.serve.lane == p.serve.lane
  {
    q := p;
    ReachSame(p);
    if |p.serve.ctrl| >= CTRL {
      q := Next(p, ServeKill);
      AlikeStep(p, ServeKill);
      HandedKept(p, ServeKill);
    }
  }

  lemma QueueOfWay(p: Pipeline, q: Pipeline)
    requires WaySame(p, q)
    ensures Queue(q) == Queue(p) && Across(q) == Across(p)
  {
  }

  /** The router puts the frame in its hand where it belongs. */
  lemma PutDown(p: Pipeline) returns (q: Pipeline)
    requires Sound(p) && Router !in p.down && p.serve.hold != []
    requires p.serve.hold[0].Sig? || !p.child.eof
    ensures Alike(p, q) && Queue(p) == [p.serve.hold[0]] + Queue(q) && Across(q) == Across(p) - 1
    ensures Handed(q) == Handed(p) + HeadSigs(p.serve.hold[0])
  {
    var r;
    if p.serve.hold[0].Sig? { r := CtrlRoom(p); } else { r := MakeRoom(p); }
    QueueOfWay(p, r);
    q := Next(r, RoutePut);
    QueuePut(r);
    ReachStep(p, r, RoutePut);
    SoundKept(r, RoutePut);
    assert |r.serve.hold| == 1;
  }

  lemma {:induction false} KilledAll(p: Pipeline) returns (q: Pipeline)
    requires Sound(p)
    ensures Reaches(p, q) && q.serve.killed == Handed(p)
    decreases |p.serve.ctrl|
  {
    ReachSame(p);
    if p.serve.ctrl == [] {
      q := p;
    } else {
      ReachStep(p, p, ServeKill);
      SoundKept(p, ServeKill);
      HandedKept(p, ServeKill);
      q := KilledAll(Next(p, ServeKill));
      ReachOn(p, Next(p, ServeKill), q);
    }
  }

  /** Nothing on the in-band way keeps the frame at `k` from the supervisor. */
  ghost predicate WayOpen(p: Pipeline, k: nat)
    requires k < |Queue(p)|
  {
    && Router !in p.down && (k < Across(p) || Forwarder !in p.down)
    && (p.child.eof ==> forall j | 0 <= j < k :: Queue(p)[j].Sig?)
  }

  /** The signals delivered once the frame at place `k` is. */
  function Due(p: Pipeline, k: nat): seq<FC.Signal>
    requires k < |Queue(p)|
  {
    Handed(p) + SigsOf(Queue(p)[..k + 1])
  }

  /** `u` is `p` with the frame at the head of the queue handed on. */
  ghost predicate HandedOn(p: Pipeline, u: Pipeline) {
    && Queue(p) != [] && Queue(p) == [Queue(p)[0]] + Queue(u) && Across(p) <= Across(u) + 1
    && u.down == p.down && u.child.eof == p.child.eof && Handed(u) == Handed(p) + HeadSigs(Queue(p)[0])
  }

  lemma Nearer(p: Pipeline, u: Pipeline, k: nat)
    requires HandedOn(p, u) && 0 < k < |Queue(p)| && WayOpen(p, k)
    ensures k - 1 < |Queue(u)| && Queue(u)[k - 1] == Queue(p)[k] && WayOpen(u, k - 1)
  {
    forall j | 0 <= j < |Queue(u)|
      ensures Queue(u)[j] == Queue(p)[j + 1]
    {
    }
  }

  lemma DueSplit(p: Pipeline, u: Pipeline, k: nat)
    requires HandedOn(p, u) && k < |Queue(p)|
    ensures Due(p, k) == if k == 0 then Handed(u) else Due(u, k - 1)
  {
    var x, rest := Queue(p)[0], Queue(u);
    assert Queue(p)[..k + 1] == [x] + rest[..k];
    ConcatSigs([x], rest[..k]);
    SigsOne([], x);
    assert [] + [x] == [x] && [] + HeadSigs(x) == HeadSigs(x);
    Assoc(Handed(p), HeadSigs(x), SigsOf(rest[..k]));
    assert rest[..0] == [] && Handed(u) + [] == Handed(u);
  }

  /** The first frame of the queue leaves it. */
  lemma HandOn(p: Pipeline) returns (u: Pipeline)
    requires Sound(p) && Queue(p) != [] && Router !in p.down && (Across(p) == 0 ==> Forwarder !in p.down)
    requires Queue(p)[0].Sig? || !p.child.eof
    ensures Alike(p, u) && HandedOn(p, u)
  {
    var b := Bring(p);
    u := PutDown(b);
    AlikeOn(p, b, u);
  }

  /** One frame further: the one at `k` has one fewer in front of it. */
  lemma Advance(room: Room, p: Pipeline, k: nat) returns (u: Pipeline)
    requires Reaches(Start(room), p) && room.ssh > 0 && k < |Queue(p)| && Queue(p)[k].Sig? && WayOpen(p, k)
    ensures Reaches(Start(room), u) && Reaches(p, u)
    ensures k == 0 ==> Due(p, k) == Handed(u)
    ensures k > 0 ==> k - 1 < |Queue(u)| && Queue(u)[k - 1].Sig? && WayOpen(u, k - 1) && Due(p, k) == Due(u, k - 1)
  {
    ReachableSound(room, p);
    u := HandOn(p);
    ReachOn(Start(room), p, u);
    DueSplit(p, u, k);
    if k > 0 {
      Nearer(p, u, k);
    }
  }

  lemma KilledReached(room: Room, p: Pipeline) returns (q: Pipeline)
    requires Reaches(Start(room), p) && room.ssh > 0
    ensures Reaches(p, q) && q.serve.killed == Handed(p)
  {
    ReachableSound(room, p);
    q := KilledAll(p);
  }

  lemma {:induction false} Deliver(room: Room, p: Pipeline, k: nat) returns (q: Pipeline)
    requires Reaches(Start(room), p) && room.ssh > 0 && k < |Queue(p)| && Queue(p)[k].Sig? && WayOpen(p, k)
    ensures Reaches(p, q) && q.serve.killed == Due(p, k)
    decreases k
  {
    var u := Advance(room, p, k);
    if k == 0 {
      q := KilledReached(room, u);
    } else {
      q := Deliver(room, u, k - 1);
    }
    ReachOn(p, u, q);
  }

  // -- exactly when -----------------------------------------------------------

  /** Some run delivers the signal at place `k` of the queue, behind the others
      in front of it. */
  ghost predicate Deliverable(p: Pipeline, k: nat)
    requires k < |Queue(p)|
  {
    exists q :: Reaches(p, q) && Due(p, k) <= q.serve.killed
  }

  lemma SigsGrow(q: seq<Frame>, a: nat, k: nat)
    requires a <= k < |q| && q[k].Sig?
    ensures |SigsOf(q[..a])| < |SigsOf(q[..k + 1])|
  {
    assert q[..k + 1] == q[..a] + q[a..k] + [q[k]];
    ConcatSigs(q[..a], q[a..k]);
    ConcatSigs(q[..a] + q[a..k], [q[k]]);
    SigsOne([], q[k]);
  }

  lemma {:induction false} FrontShort(q: seq<Frame>, j: nat)
    requires j < |q| && !q[j].Sig?
    ensures |SigFront(q)| <= |SigsOf(q[..j])|
  {
    if q[0].Sig? {
      assert q[..j][1..] == q[1..][..j - 1] && q[..j][0] == q[0];
      FrontShort(q[1..], j - 1);
    }
  }

  lemma NotAcross(p: Pipeline, queue: seq<Frame>, k: nat, events: seq<Event>)
    requires BoundsInv(p) && queue == Queue(p) && k < |queue| && queue[k].Sig?
    requires k >= Across(p) && Forwarder in p.down && Run(p, events).Some?
    ensures |Run(p, events).value.serve.killed| < |Handed(p)| + |SigsOf(queue[..k + 1])|
  {
    ForwarderGoneRun(p, events);
    SigsGrow(queue, Across(p), k);
    assert queue[..Across(p)] == p.serve.hold + p.engine.ssh;
  }

  lemma BehindStdin(p: Pipeline, queue: seq<Frame>, j: nat, k: nat, events: seq<Event>)
    requires BoundsInv(p) && queue == Queue(p) && j < k < |queue| && queue[k].Sig?
    requires p.child.eof && !queue[j].Sig? && Run(p, events).Some?
    ensures |Run(p, events).value.serve.killed| < |Handed(p)| + |SigsOf(queue[..k + 1])|
  {
    BarredRun(p, events);
    FrontShort(queue, j);
    SigsGrow(queue, j, k);
  }

  lemma Undeliverable(p: Pipeline, queue: seq<Frame>, k: nat, events: seq<Event>)
    requires BoundsInv(p) && queue == Queue(p) && k < |queue| && queue[k].Sig?
    requires !WayOpen(p, k) && Run(p, events).Some?
    ensures |Run(p, events).value.serve.killed| < |Handed(p)| + |SigsOf(queue[..k + 1])|
  {
    if Router in p.down {
      RouterGoneSilences(p, events);
      SigsGrow(queue, 0, k);
    } else if k >= Across(p) && Forwarder in p.down {
      NotAcross(p, queue, k, events);
    } else {
      var j :| 0 <= j < k && !queue[j].Sig?;
      BehindStdin(p, queue, j, k, events);
    }
  }

  /** An in-band signal that the forwarder's lane or anything behind it holds
      can still be delivered exactly when the router runs, the forwarder does
      if it has still to send it, and, with the pump gone, no stdin frame
      stands in front of it. */
  lemma DeliverableExactly(room: Room, events: seq<Event>, p: Pipeline, k: nat)
    requires Run(Start(room), events) == Some(p) && room.ssh > 0
    requires k < |Queue(p)| && Queue(p)[k].Sig?
    ensures Deliverable(p, k) <==> WayOpen(p, k)
  {
    ReachableSound(room, p);
    if WayOpen(p, k) {
      var q := Deliver(room, p, k);
    } else if Deliverable(p, k) {
      var q :| Reaches(p, q) && Due(p, k) <= q.serve.killed;
      var more :| Run(p, more) == Some(q);
      Undeliverable(p, Queue(p), k, more);
    }
  }

  // -- a child that has closed its input --------------------------------------

  /** The router's one step then is to leave. */
  lemma RouterMustLeave(p: Pipeline)
    requires BoundsInv(p) && Router !in p.down && p.serve.hold != [] && !p.serve.hold[0].Sig? && p.child.eof
    ensures Enabled(p, RouterLeaves) && !Enabled(p, RouteTake) && !Enabled(p, RoutePut)
  {
  }

  /** The child closes its input; the client's next stdin frame */
  function DeafFront(d: Bytes): seq<Event> {
    [Event.Fail(Pump)] + ([ClientRead(d)] + ([ReaderTake] + ([ReaderPut] + [])))
  }

  /** comes into the router's hand. */
  function DeafBack(): seq<Event> {
    [FwdStdin] + ([FwdSent] + ([RouteTake] + []))
  }

  function DeafMiddle(room: Room, d: Bytes): Pipeline {
    var s := Start(room);
    s.(client := s.client.(sent := d), reader := s.reader.(lane := [Data(d)]),
       child := s.child.(eof := true), down := {Pump})
  }

  lemma RunCons(p: Pipeline, e: Event, rest: seq<Event>)
    requires Enabled(p, e)
    ensures Run(p, [e] + rest) == Run(Next(p, e), rest)
  {
    assert ([e] + rest)[1..] == rest;
  }

  lemma DeafStarts(room: Room, d: Bytes)
    requires d != [] && room.ipc > 0
    ensures Run(Start(room), DeafFront(d)) == Some(DeafMiddle(room, d))
  {
    var p0 := Start(room);
    var p1 := Next(p0, Event.Fail(Pump));
    var p2 := Next(p1, ClientRead(d));
    var p3 := Next(p2, ReaderTake);
    assert p0.client.sent + d == d && [] + [Data(d)] == [Data(d)] && [Data(d)][1..] == [];
    assert {} + {Pump} == {Pump};
    assert Next(p3, ReaderPut) == DeafMiddle(room, d);
    RunCons(p3, ReaderPut, []);
    RunCons(p2, ReaderTake, [ReaderPut] + []);
    RunCons(p1, ClientRead(d), [ReaderTake] + ([ReaderPut] + []));
    RunCons(p0, Event.Fail(Pump), [ClientRead(d)] + ([ReaderTake] + ([ReaderPut] + [])));
  }

  lemma DeafEnds(room: Room, d: Bytes)
    requires room.ssh > 0
    ensures var r := Run(DeafMiddle(room, d), DeafBack());
            r.Some? && r.value.serve.hold == [Data(d)] && r.value.child.eof && r.value.down == {Pump}
            && Handed(r.value) == []
  {
    var p4 := DeafMiddle(room, d);
    var p5 := Next(p4, FwdStdin);
    var p6 := Next(p5, FwdSent);
    RunCons(p6, RouteTake, []);
    RunCons(p5, FwdSent, [RouteTake] + []);
    RunCons(p4, FwdStdin, [FwdSent] + ([RouteTake] + []));
  }

  /** From there on no in-band signal is ever delivered, in any continuation:
      the router's one step is to leave. */
  lemma DeafRouter(room: Room, d: Bytes, more: seq<Event>)
    requires d != [] && room.ipc > 0 && room.ssh > 0
    ensures var deaf := DeafFront(d) + DeafBack();
            && Run(Start(room), deaf).Some? && Enabled(Run(Start(room), deaf).value, RouterLeaves)
            && (Run(Start(room), deaf + more).Some? ==> Run(Start(room), deaf + more).value.serve.killed == [])
  {
    var deaf := DeafFront(d) + DeafBack();
    DeafStarts(room, d);
    DeafEnds(room, d);
    RunBehind(Start(room), DeafFront(d), DeafBack());
    var p := Run(Start(room), deaf).value;
    ReachableSound(room, p);
    RunBehind(Start(room), deaf, more);
    if Run(p, more).Some? {
      assert Queue(p)[0] == Data(d);
      BarredRun(p, more);
    }
  }
}
