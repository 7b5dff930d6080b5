/** Standard input and signals on their way from the client to the child: the
    client's pipe, the daemon's frame reader and lanes, the forwarder, the SSH
    stream, serve's router and lane, and the child's stdin pump. Every hop is a
    bounded queue; any hop may fail at any time. */
module StdinPipeline {
  import opened Prelude
  import FC = FrameCodec

  datatype Frame = Data(bytes: Bytes) | Eof | Sig(signal: FC.Signal)

  /** The tasks that can go down (a broken pipe, a dead transport, teardown). */
  datatype Hop = Reader | Forwarder | Router | Pump

  const LANE: nat := 64             // daemon's stdin lane
  const CTRL: nat := 16             // control events to a main loop
  const SIGNALS: nat := 8           // signal lane, and the in-band signal lane
  const SERVE_LANE: nat := 256      // serve's stdin lane

  datatype Client = Client(
    sent: Bytes,                    // stdin bytes it has framed
    signals: seq<FC.Signal>,        // signals it has framed
    open: bool,                     // its stdin has not ended
    shut: bool,                     // it closed the connection
    ipc: seq<Frame>)

  /** The daemon's frame reader and the lanes it fills. */
  datatype Intake = Intake(
    hold: seq<Frame>,               // frame read, its lane being awaited
    done: bool,                     // the end of the connection was seen
    lane: seq<Frame>,
    ctrl: seq<FC.Signal>)

  /** The daemon's main loop, signal sender and forwarder. */
  datatype Engine = Engine(
    sigLane: seq<FC.Signal>,
    inband: seq<FC.Signal>,
    oob: seq<FC.Signal>,            // SSH channel requests sent
    hold: seq<Frame>,               // frame being written
    open: bool,                     // the lane is still read
    ssh: seq<Frame>)

  /** serve's router. */
  datatype Serve = Serve(
    hold: seq<Frame>,
    lane: seq<Frame>,
    ctrl: seq<FC.Signal>,
    killed: seq<FC.Signal>)         // in-band signals delivered to the group

  /** serve's stdin pump and the child. */
  datatype Child = Child(
    hold: Bytes,                    // data being written
    taken: bool,                    // the pump met the Eof
    got: Bytes,                     // what the child's stdin has received
    eof: bool)                      // the write end was dropped

  /** What the operating system's pipe and the SSH window hold, in frames. */
  datatype Room = Room(ipc: nat, ssh: nat)

  datatype Pipeline = Pipeline(
    client: Client, reader: Intake, engine: Engine, serve: Serve, child: Child,
    ended: bool,                    // an Eof was put on the way
    down: set<Hop>,
    room: Room)

  function Start(room: Room): Pipeline {
    Pipeline(Client([], [], true, false, []), Intake([], false, [], []), Engine([], [], [], [], true, []),
             Serve([], [], [], []), Child([], false, [], false), false, {}, room)
  }

  datatype Event =
    | ClientRead(d: Bytes) | ClientEof | ClientSignal(s: FC.Signal) | ClientGone
    | ReaderTake | ReaderSeesEnd | ReaderPut
    | LoopSignal | SenderSignal
    | FwdSignal | FwdStdin | FwdLaneClosed | FwdSent
    | RouteTake | RoutePut | RouterLeaves | ServeKill
    | PumpTake | PumpWrite(n: nat) | PumpLaneClosed
    | Fail(hop: Hop)

  predicate Enabled(p: Pipeline, e: Event) {
    match e
    case ClientRead(d) => p.client.open && d != [] && |p.client.ipc| < p.room.ipc
    case ClientEof => p.client.open && |p.client.ipc| < p.room.ipc
    case ClientSignal(_) => !p.client.shut && |p.client.ipc| < p.room.ipc
    case ClientGone => !p.client.shut
    case ReaderTake => Reader !in p.down && p.reader.hold == [] && p.client.ipc != []
    case ReaderSeesEnd =>
      Reader !in p.down && p.reader.hold == [] && p.client.ipc == [] && p.client.shut && !p.reader.done
    case ReaderPut =>
      Reader !in p.down && p.reader.hold != []
      && (if p.reader.hold[0].Sig? then |p.reader.ctrl| < CTRL else |p.reader.lane| < LANE)
    case LoopSignal => p.reader.ctrl != []
    case SenderSignal => Forwarder !in p.down && p.engine.sigLane != []
    case FwdSignal => Forwarder !in p.down && p.engine.hold == [] && p.engine.inband != []
    case FwdStdin =>
      Forwarder !in p.down && p.engine.hold == [] && p.engine.inband == [] && p.engine.open && p.reader.lane != []
    case FwdLaneClosed =>
      Forwarder !in p.down && p.engine.hold == [] && p.engine.open && p.reader.lane == [] && Reader in p.down
    case FwdSent => Forwarder !in p.down && p.engine.hold != [] && |p.engine.ssh| < p.room.ssh
    case RouteTake => Router !in p.down && p.serve.hold == [] && p.engine.ssh != []
    case RoutePut =>
      Router !in p.down && p.serve.hold != []
      && (if p.serve.hold[0].Sig? then |p.serve.ctrl| < CTRL else |p.serve.lane| < SERVE_LANE && !p.child.eof)
    case RouterLeaves => Router !in p.down && p.serve.hold != [] && !p.serve.hold[0].Sig? && p.child.eof
    case ServeKill => p.serve.ctrl != []
    case PumpTake => Pump !in p.down && !p.child.eof && p.child.hold == [] && p.serve.lane != []
    case PumpWrite(n) => Pump !in p.down && !p.child.eof && 0 < n <= |p.child.hold|
    case PumpLaneClosed =>
      Pump !in p.down && !p.child.eof && p.child.hold == [] && p.serve.lane == [] && Router in p.down
    case Fail(h) => h !in p.down
  }

  function Next(p: Pipeline, e: Event): Pipeline
    requires Enabled(p, e)
  {
    match e
    case ClientRead(d) => p.(client := p.client.(ipc := p.client.ipc + [Data(d)], sent := p.client.sent + d))
    case ClientEof => p.(client := p.client.(ipc := p.client.ipc + [Eof], open := false), ended := true)
    case ClientSignal(s) => p.(client := p.client.(ipc := p.client.ipc + [Sig(s)], signals := p.client.signals + [s]))
    case ClientGone => p.(client := p.client.(shut := true, open := false))
    case ReaderTake =>
      p.(reader := p.reader.(hold := p.reader.hold + [p.client.ipc[0]]), client := p.client.(ipc := p.client.ipc[1..]))
    case ReaderSeesEnd => p.(reader := p.reader.(hold := p.reader.hold + [Eof], done := true), ended := true)
    case ReaderPut =>
      var x, left := p.reader.hold[0], p.reader.hold[1..];
      if x.Sig? then p.(reader := p.reader.(hold := left, ctrl := p.reader.ctrl + [x.signal]))
      else p.(reader := p.reader.(hold := left, lane := p.reader.lane + [x]))
    case LoopSignal =>
      var x := p.reader.ctrl[0];
      p.(reader := p.reader.(ctrl := p.reader.ctrl[1..]),
         engine := if |p.engine.sigLane| < SIGNALS then p.engine.(sigLane := p.engine.sigLane + [x]) else p.engine)
    case SenderSignal =>
      var x := p.engine.sigLane[0];
      p.(engine := p.engine.(
           sigLane := p.engine.sigLane[1..],
           oob := if x.Int? then p.engine.oob + [x] else p.engine.oob,
           inband := if |p.engine.inband| < SIGNALS then p.engine.inband + [x] else p.engine.inband))
    case FwdSignal =>
      p.(engine := p.engine.(inband := p.engine.inband[1..], hold := p.engine.hold + [Sig(p.engine.inband[0])]))
    case FwdStdin =>
      var x := p.reader.lane[0];
      p.(reader := p.reader.(lane := p.reader.lane[1..]),
         engine := p.engine.(hold := p.engine.hold + [x], open := !x.Eof?))
    case FwdLaneClosed => p.(engine := p.engine.(open := false))
    case FwdSent =>
      p.(engine := p.engine.(hold := p.engine.hold[1..], ssh := p.engine.ssh + [p.engine.hold[0]]))
    case RouteTake =>
      p.(serve := p.serve.(hold := p.serve.hold + [p.engine.ssh[0]]), engine := p.engine.(ssh := p.engine.ssh[1..]))
    case RoutePut =>
      var x, left := p.serve.hold[0], p.serve.hold[1..];
      if x.Sig? then p.(serve := p.serve.(hold := left, ctrl := p.serve.ctrl + [x.signal]))
      else p.(serve := p.serve.(hold := left, lane := p.serve.lane + [x]))
    case RouterLeaves => p.(down := p.down + {Router})
    case ServeKill =>
      p.(serve := p.serve.(killed := p.serve.killed + [p.serve.ctrl[0]], ctrl := p.serve.ctrl[1..]))
    case PumpTake =>
      var x := p.serve.lane[0];
      p.(serve := p.serve.(lane := p.serve.lane[1..]),
         child := if x.Data? then p.child.(hold := x.bytes)
                  else if x.Eof? then p.child.(taken := true, eof := true) else p.child)
    case PumpWrite(n) =>
      p.(child := p.child.(got := p.child.got + p.child.hold[..n], hold := p.child.hold[n..]))
    case PumpLaneClosed => p.(child := p.child.(eof := true))
    case Fail(h) => p.(down := p.down + {h}, child := if h.Pump? then p.child.(eof := true) else p.child)
  }

  function Run(p: Pipeline, events: seq<Event>): Option<Pipeline>
    decreases |events|
  {
    if events == [] then Some(p)
    else if Enabled(p, events[0]) then Run(Next(p, events[0]), events[1..])
    else None
  }

  // -- reading the queues -----------------------------------------------------

  function HeadStdin(x: Frame): seq<Frame> {
    if x.Sig? then [] else [x]
  }

  /** The stdin frames of a queue, signals left out. */
  function StdinOf(q: seq<Frame>): seq<Frame> {
    if q == [] then [] else HeadStdin(q[0]) + StdinOf(q[1..])
  }

  function HeadSigs(x: Frame): seq<FC.Signal> {
    if x.Sig? then [x.signal] else []
  }

  function SigsOf(q: seq<Frame>): seq<FC.Signal> {
    if q == [] then [] else HeadSigs(q[0]) + SigsOf(q[1..])
  }

  function Carried(x: Frame): Bytes {
    if x.Data? then x.bytes else []
  }

  function BytesOf(q: seq<Frame>): Bytes {
    if q == [] then [] else Carried(q[0]) + BytesOf(q[1..])
  }

  lemma {:induction false} ConcatStdin(a: seq<Frame>, b: seq<Frame>)
    ensures StdinOf(a + b) == StdinOf(a) + StdinOf(b)
  {
    if a == [] {
      assert a + b == b;
    } else {
      FrontOfConcat(a, b);
      ConcatStdin(a[1..], b);
      Assoc(HeadStdin(a[0]), StdinOf(a[1..]), StdinOf(b));
    }
  }

  lemma {:induction false} ConcatSigs(a: seq<Frame>, b: seq<Frame>)
    ensures SigsOf(a + b) == SigsOf(a) + SigsOf(b)
  {
    if a == [] {
      assert a + b == b;
    } else {
      FrontOfConcat(a, b);
      ConcatSigs(a[1..], b);
      Assoc(HeadSigs(a[0]), SigsOf(a[1..]), SigsOf(b));
    }
  }

  lemma {:induction false} ConcatBytes(a: seq<Frame>, b: seq<Frame>)
    ensures BytesOf(a + b) == BytesOf(a) + BytesOf(b)
  {
    if a == [] {
      assert a + b == b;
    } else {
      FrontOfConcat(a, b);
      ConcatBytes(a[1..], b);
      Assoc(Carried(a[0]), BytesOf(a[1..]), BytesOf(b));
    }
  }

  /** The stdin frames the pump is still to meet, in that order. */
  function Stream(p: Pipeline): seq<Frame> {
    StdinOf(p.serve.lane) + StdinOf(p.serve.hold) + StdinOf(p.engine.ssh) + StdinOf(p.engine.hold)
    + StdinOf(p.reader.lane) + StdinOf(p.reader.hold) + StdinOf(p.client.ipc)
  }

  /** Every signal on the in-band way, most downstream first. */
  function Track(p: Pipeline): seq<FC.Signal> {
    p.serve.killed + p.serve.ctrl + SigsOf(p.serve.hold) + SigsOf(p.engine.ssh) + SigsOf(p.engine.hold)
    + p.engine.inband + p.engine.sigLane + p.reader.ctrl + SigsOf(p.reader.hold) + SigsOf(p.client.ipc)
  }

  ghost predicate HasEof(q: seq<Frame>) {
    exists k | 0 <= k < |q| :: q[k].Eof?
  }

  ghost predicate NoSig(q: seq<Frame>) {
    forall k | 0 <= k < |q| :: !q[k].Sig?
  }

  /** `a` is `b` with some elements left out. */
  ghost predicate Thinned<T>(a: seq<T>, b: seq<T>)
    decreases |b|
  {
    if a == [] then true
    else if b == [] then false
    else if a[|a| - 1] == b[|b| - 1] then Thinned(a[..|a| - 1], b[..|b| - 1])
    else Thinned(a, b[..|b| - 1])
  }

  lemma {:induction false} ThinnedShorter<T>(a: seq<T>, b: seq<T>)
    requires a != [] && Thinned(a, b)
    ensures Thinned(a[..|a| - 1], b)
    decreases |b|
  {
    if a[|a| - 1] == b[|b| - 1] {
      ThinnedWider(a[..|a| - 1], b);
    } else {
      ThinnedShorter(a, b[..|b| - 1]);
      ThinnedWider(a[..|a| - 1], b);
    }
  }

  lemma {:induction false} ThinnedWider<T>(a: seq<T>, b: seq<T>)
    requires b != [] && Thinned(a, b[..|b| - 1])
    ensures Thinned(a, b)
    decreases |b|, 0
  {
    if a != [] && a[|a| - 1] == b[|b| - 1] {
      ThinnedShorter(a, b[..|b| - 1]);
    }
  }

  /** Leaving out one more element. */
  lemma {:induction false} ThinnedDrop<T>(u: seq<T>, x: T, v: seq<T>, b: seq<T>)
    requires Thinned(u + [x] + v, b)
    ensures Thinned(u + v, b)
    decreases |b|
  {
    var a := u + [x] + v;
    if v == [] {
      ThinnedShorter(a, b);
      assert a[..|a| - 1] == u && u + v == u;
    } else {
      var w := v[..|v| - 1];
      assert a[|a| - 1] == v[|v| - 1] == (u + v)[|u + v| - 1];
      assert (u + v)[..|u + v| - 1] == u + w;
      if a[|a| - 1] == b[|b| - 1] {
        assert a[..|a| - 1] == u + [x] + w;
        ThinnedDrop(u, x, w, b[..|b| - 1]);
      } else {
        ThinnedDrop(u, x, v, b[..|b| - 1]);
      }
    }
  }

  lemma ThinnedBoth<T>(a: seq<T>, b: seq<T>, x: T)
    requires Thinned(a, b)
    ensures Thinned(a + [x], b + [x])
  {
    assert (a + [x])[..|a|] == a && (b + [x])[..|b|] == b;
  }

  // -- the invariant ----------------------------------------------------------

  ghost predicate StdinInv(p: Pipeline) {
    var q := Stream(p);
    && p.child.got + p.child.hold + BytesOf(q) == p.client.sent
    && EofsLast(q)
    && (p.ended <==> p.child.taken || HasEof(q))
    && (p.ended ==> !p.client.open)
    && (p.child.taken ==> p.child.eof && p.child.hold == [] && forall k | 0 <= k < |q| :: q[k].Eof?)
    && (p.child.eof ==> p.child.taken || Router in p.down || Pump in p.down)
  }

  /** An Eof lies behind the forwarder's reading point. */
  ghost predicate EofPassed(p: Pipeline) {
    HasEof(p.serve.lane) || HasEof(p.serve.hold) || HasEof(p.engine.ssh) || HasEof(p.engine.hold)
  }

  ghost predicate BoundsInv(p: Pipeline) {
    && |p.reader.hold| <= 1 && |p.engine.hold| <= 1 && |p.serve.hold| <= 1
    && |p.reader.lane| <= LANE && |p.serve.lane| <= SERVE_LANE
    && |p.reader.ctrl| <= CTRL && |p.serve.ctrl| <= CTRL
    && |p.engine.sigLane| <= SIGNALS && |p.engine.inband| <= SIGNALS
  }

  ghost predicate LanesInv(p: Pipeline) {
    NoSig(p.reader.lane) && NoSig(p.serve.lane)
  }

  ghost predicate ClientInv(p: Pipeline) {
    && (p.reader.done ==> p.client.shut && p.client.ipc == [] && p.ended)
    && (p.client.shut ==> !p.client.open)
    && (!p.client.open ==> p.client.shut || p.ended)
  }

  ghost predicate EofInv(p: Pipeline) {
    !p.engine.open && Reader !in p.down ==> p.child.taken || EofPassed(p)
  }

  ghost predicate ShapeInv(p: Pipeline) {
    BoundsInv(p) && LanesInv(p) && ClientInv(p) && EofInv(p)
  }

  ghost predicate OnlyInts(q: seq<FC.Signal>) {
    forall k | 0 <= k < |q| :: q[k].Int?
  }

  ghost predicate SignalInv(p: Pipeline) {
    Thinned(Track(p), p.client.signals) && Thinned(OobTrack(p), p.client.signals) && OnlyInts(p.engine.oob)
  }

  ghost predicate Inv(p: Pipeline) {
    StdinInv(p) && ShapeInv(p) && SignalInv(p)
  }

  // -- stdin ------------------------------------------------------------------

  /** One frame moved from the head of a queue to the end of the next. */
  lemma Shift(front: seq<Frame>, q1: seq<Frame>, q2: seq<Frame>)
    requires q2 != []
    ensures front + StdinOf(q1) + StdinOf(q2) == front + StdinOf(q1 + [q2[0]]) + StdinOf(q2[1..])
    ensures StdinOf(q1) + StdinOf(q2) == StdinOf(q1 + [q2[0]]) + StdinOf(q2[1..])
  {
    var x := StdinOf([q2[0]]);
    ConcatStdin(q1, [q2[0]]);
    StdinHead(q2);
    Assoc(StdinOf(q1), x, StdinOf(q2[1..]));
    Assoc(front, StdinOf(q1), StdinOf(q2));
    Assoc(front, StdinOf(q1) + x, StdinOf(q2[1..]));
  }

  lemma StdinHead(q: seq<Frame>)
    requires q != []
    ensures StdinOf(q) == StdinOf([q[0]]) + StdinOf(q[1..])
  {
    assert [q[0]] + q[1..] == q;
    ConcatStdin([q[0]], q[1..]);
  }

  lemma SigInvisible(q: seq<Frame>, s: FC.Signal)
    ensures StdinOf(q + [Sig(s)]) == StdinOf(q) && StdinOf([Sig(s)] + q) == StdinOf(q)
    ensures StdinOf([Sig(s)]) == []
  {
    ConcatStdin(q, [Sig(s)]);
    ConcatStdin([Sig(s)], q);
  }

  lemma StdinOne(q: seq<Frame>, x: Frame)
    requires !x.Sig?
    ensures StdinOf(q + [x]) == StdinOf(q) + [x] && StdinOf([x] + q) == [x] + StdinOf(q)
    ensures BytesOf(q + [x]) == BytesOf(q) + Carried(x)
    ensures BytesOf([x] + q) == Carried(x) + BytesOf(q)
  {
    ConcatStdin(q, [x]);
    ConcatStdin([x], q);
    ConcatBytes(q, [x]);
    ConcatBytes([x], q);
    assert BytesOf([x]) == Carried(x);
  }

  /** Events that only pass frames on, or move signals. */
  predicate PassesOn(e: Event) {
    !e.ClientRead? && !e.ClientEof? && !e.ReaderSeesEnd? && !e.PumpTake?
  }

  /** The daemon's hops. */
  lemma StreamKeptDaemon(p: Pipeline, e: Event)
    requires BoundsInv(p) && Enabled(p, e)
    requires e.ClientSignal? || e.ReaderTake? || e.ReaderPut? || e.FwdSignal? || e.FwdStdin?
    ensures Stream(Next(p, e)) == Stream(p)
  {
    var front := StdinOf(p.serve.lane) + StdinOf(p.serve.hold) + StdinOf(p.engine.ssh);
    match e {
      case ClientSignal(s) => SigInvisible(p.client.ipc, s);
      case ReaderTake => Shift(front + StdinOf(p.engine.hold) + StdinOf(p.reader.lane), p.reader.hold, p.client.ipc);
      case ReaderPut =>
        assert p.reader.hold == [p.reader.hold[0]] && p.reader.hold[1..] == [];
        if p.reader.hold[0].Sig? {
          SigInvisible([], p.reader.hold[0].signal);
        } else {
          Shift(front + StdinOf(p.engine.hold), p.reader.lane, p.reader.hold);
        }
      case FwdSignal => SigInvisible(p.engine.hold, p.engine.inband[0]);
      case FwdStdin => Shift(front, p.engine.hold, p.reader.lane);
    }
  }

  /** The SSH stream and serve's hops. */
  lemma StreamKeptServe(p: Pipeline, e: Event)
    requires BoundsInv(p) && Enabled(p, e) && (e.FwdSent? || e.RouteTake? || e.RoutePut?)
    ensures Stream(Next(p, e)) == Stream(p)
  {
    match e {
      case FwdSent => Shift(StdinOf(p.serve.lane) + StdinOf(p.serve.hold), p.engine.ssh, p.engine.hold);
      case RouteTake => Shift(StdinOf(p.serve.lane), p.serve.hold, p.engine.ssh);
      case RoutePut =>
        assert p.serve.hold == [p.serve.hold[0]] && p.serve.hold[1..] == [];
        if p.serve.hold[0].Sig? {
          SigInvisible([], p.serve.hold[0].signal);
        } else {
          Shift([], p.serve.lane, p.serve.hold);
        }
    }
  }

  /** Passing a frame on changes nothing about the stream the pump will meet,
      whichever hop does it and whatever signals overtake it there. */
  lemma StreamKept(p: Pipeline, e: Event)
    requires BoundsInv(p) && Enabled(p, e) && PassesOn(e)
    ensures Stream(Next(p, e)) == Stream(p)
  {
    if e.ClientSignal? || e.ReaderTake? || e.ReaderPut? || e.FwdSignal? || e.FwdStdin? {
      StreamKeptDaemon(p, e);
    } else if e.FwdSent? || e.RouteTake? || e.RoutePut? {
      StreamKeptServe(p, e);
    }
  }

  /** What the stdin conditions do not look at may change. */
  ghost predicate StdinAlike(p: Pipeline, n: Pipeline) {
    && n.client.sent == p.client.sent && (n.client.open ==> p.client.open) && n.ended == p.ended
    && n.child.got == p.child.got && n.child.hold == p.child.hold && n.child.taken == p.child.taken
    && p.down <= n.down
    && (n.child.eof == p.child.eof || (n.child.eof && (Pump in n.down || Router in n.down)))
  }

  lemma StdinSame(p: Pipeline, n: Pipeline)
    requires StdinInv(p) && Stream(n) == Stream(p) && StdinAlike(p, n)
    ensures StdinInv(n)
  {
  }

  lemma PassesAlike(p: Pipeline, e: Event)
    requires Enabled(p, e) && PassesOn(e) && !e.PumpWrite?
    ensures StdinAlike(p, Next(p, e))
  {
  }

  lemma StdinPasses(p: Pipeline, e: Event)
    requires StdinInv(p) && BoundsInv(p) && Enabled(p, e) && PassesOn(e)
    ensures StdinInv(Next(p, e))
  {
    StreamKept(p, e);
    if e.PumpWrite? {
      PumpWriteKeeps(p, e.n);
    } else {
      PassesAlike(p, e);
      StdinSame(p, Next(p, e));
    }
  }

  lemma PumpWriteKeeps(p: Pipeline, n: nat)
    requires StdinInv(p) && Enabled(p, PumpWrite(n)) && Stream(Next(p, PumpWrite(n))) == Stream(p)
    ensures StdinInv(Next(p, PumpWrite(n)))
  {
    assert p.child.got + p.child.hold[..n] + p.child.hold[n..] == p.child.got + p.child.hold;
  }

  /** A frame put on the way by the client, or the Eof the reader makes up
      for a client that went away. */
  function Entering(e: Event): Frame {
    if e.ClientRead? then Data(e.d) else Eof
  }

  lemma EntersLast(p: Pipeline, e: Event)
    requires Enabled(p, e) && (e.ClientRead? || e.ClientEof? || e.ReaderSeesEnd?)
    ensures Stream(Next(p, e)) == Stream(p) + [Entering(e)]
  {
    var x := Entering(e);
    var front := StdinOf(p.serve.lane) + StdinOf(p.serve.hold) + StdinOf(p.engine.ssh) + StdinOf(p.engine.hold)
                 + StdinOf(p.reader.lane);
    if e.ReaderSeesEnd? {
      StdinOne(p.reader.hold, x);
      assert front + (StdinOf(p.reader.hold) + [x]) + [] == front + StdinOf(p.reader.hold) + [] + [x];
    } else {
      StdinOne(p.client.ipc, x);
      var behind := front + StdinOf(p.reader.hold);
      assert behind + (StdinOf(p.client.ipc) + [x]) == behind + StdinOf(p.client.ipc) + [x];
    }
  }

  lemma StdinEnters(p: Pipeline, e: Event)
    requires StdinInv(p) && ShapeInv(p) && Enabled(p, e) && (e.ClientRead? || e.ClientEof? || e.ReaderSeesEnd?)
    ensures StdinInv(Next(p, e))
  {
    var x := Entering(e);
    EntersLast(p, e);
    StdinOne(Stream(p), x);
    EofAppended(Stream(p), x);
    EofsStayLast(Stream(p), x);
    var before := p.child.got + p.child.hold;
    Assoc(before, BytesOf(Stream(p)), Carried(x));
    if x.Eof? { assert BytesOf(Stream(p)) + [] == BytesOf(Stream(p)); }
  }

  ghost predicate EofsLast(q: seq<Frame>) {
    forall i, j | 0 <= i < j < |q| && q[i].Eof? :: q[j].Eof?
  }

  lemma EofsStayLast(q: seq<Frame>, x: Frame)
    requires EofsLast(q) && (x.Eof? || !HasEof(q))
    ensures EofsLast(q + [x])
  {
  }

  lemma EofAppended(q: seq<Frame>, x: Frame)
    ensures HasEof(q + [x]) <==> HasEof(q) || x.Eof?
    ensures HasEof([x] + q) <==> HasEof(q) || x.Eof?
  {
    assert (q + [x])[|q|] == x && ([x] + q)[0] == x;
    if k :| 0 <= k < |q| && q[k].Eof? {
      assert (q + [x])[k].Eof? && ([x] + q)[k + 1].Eof?;
    }
    if k :| 0 <= k < |q| + 1 && ([x] + q)[k].Eof? {
      assert k > 0 ==> q[k - 1].Eof?;
    }
  }

  lemma LeavesFirst(p: Pipeline)
    requires LanesInv(p) && Enabled(p, PumpTake)
    ensures Stream(p) == [p.serve.lane[0]] + Stream(Next(p, PumpTake))
  {
    var x := [p.serve.lane[0]];
    var q := p.serve.lane[1..];
    assert p.serve.lane == x + q;
    StdinOne(q, p.serve.lane[0]);
    var a := StdinOf(q);
    Assoc(x, a, StdinOf(p.serve.hold));
    a := a + StdinOf(p.serve.hold);
    Assoc(x, a, StdinOf(p.engine.ssh));
    a := a + StdinOf(p.engine.ssh);
    Assoc(x, a, StdinOf(p.engine.hold));
    a := a + StdinOf(p.engine.hold);
    Assoc(x, a, StdinOf(p.reader.lane));
    a := a + StdinOf(p.reader.lane);
    Assoc(x, a, StdinOf(p.reader.hold));
    a := a + StdinOf(p.reader.hold);
    Assoc(x, a, StdinOf(p.client.ipc));
  }

  lemma BytesLeave(p: Pipeline)
    requires StdinInv(p) && Enabled(p, PumpTake)
    requires Stream(p) == [p.serve.lane[0]] + Stream(Next(p, PumpTake))
    ensures var n := Next(p, PumpTake); n.child.got + n.child.hold + BytesOf(Stream(n)) == n.client.sent
  {
    var x, rest := p.serve.lane[0], Stream(Next(p, PumpTake));
    StdinOne(rest, x);
    Assoc(p.child.got, Carried(x), BytesOf(rest));
    assert p.child.got + [] == p.child.got;
  }

  lemma EofsLeave(x: Frame, rest: seq<Frame>)
    requires EofsLast([x] + rest)
    ensures EofsLast(rest)
    ensures x.Eof? ==> forall k | 0 <= k < |rest| :: rest[k].Eof?
    ensures HasEof([x] + rest) <==> HasEof(rest) || x.Eof?
  {
    EofAppended(rest, x);
    assert ([x] + rest)[0] == x && forall k | 0 <= k < |rest| :: ([x] + rest)[k + 1] == rest[k];
  }

  lemma StdinLeaves(p: Pipeline)
    requires StdinInv(p) && BoundsInv(p) && LanesInv(p) && Enabled(p, PumpTake)
    ensures StdinInv(Next(p, PumpTake))
  {
    LeavesFirst(p);
    BytesLeave(p);
    EofsLeave(p.serve.lane[0], Stream(Next(p, PumpTake)));
  }

  lemma StdinKept(p: Pipeline, e: Event)
    requires StdinInv(p) && ShapeInv(p) && Enabled(p, e)
    ensures StdinInv(Next(p, e))
  {
    if PassesOn(e) { StdinPasses(p, e); }
    else if e.PumpTake? { StdinLeaves(p); }
    else { StdinEnters(p, e); }
  }

  // -- shape ------------------------------------------------------------------

  /** An Eof that has passed the forwarder stays behind it until it is taken. */
  lemma PassedKept(p: Pipeline, e: Event)
    requires ShapeInv(p) && Enabled(p, e)
    requires !p.engine.open && Reader !in p.down
    ensures Next(p, e).child.taken || EofPassed(Next(p, e))
  {
    match e {
      case FwdSignal => EofAppended(p.engine.hold, Sig(p.engine.inband[0]));
      case FwdSent => EofMoves(p.engine.hold, p.engine.ssh);
      case RouteTake => EofMoves(p.engine.ssh, p.serve.hold);
      case RoutePut => EofMoves(p.serve.hold, p.serve.lane);
      case PumpTake => EofMoves(p.serve.lane, []);
      case _ =>
    }
  }

  lemma EofMoves(from: seq<Frame>, to: seq<Frame>)
    requires from != []
    ensures HasEof(from) <==> HasEof(from[1..]) || from[0].Eof?
    ensures HasEof(to + [from[0]]) <==> HasEof(to) || from[0].Eof?
  {
    EofAppended(from[1..], from[0]);
    EofAppended(to, from[0]);
    assert from == [from[0]] + from[1..];
  }

  lemma FwdCloses(p: Pipeline, e: Event)
    requires ShapeInv(p) && Enabled(p, e) && p.engine.open && !Next(p, e).engine.open
    ensures Reader in p.down || EofPassed(Next(p, e))
  {
    if e.FwdStdin? {
      EofMoves(p.reader.lane, p.engine.hold);
    }
  }

  lemma BoundsKept(p: Pipeline, e: Event)
    requires BoundsInv(p) && Enabled(p, e)
    ensures BoundsInv(Next(p, e))
  {
  }

  lemma LanesKept(p: Pipeline, e: Event)
    requires LanesInv(p) && Enabled(p, e)
    ensures LanesInv(Next(p, e))
  {
  }

  lemma ClientKept(p: Pipeline, e: Event)
    requires ClientInv(p) && Enabled(p, e)
    ensures ClientInv(Next(p, e))
  {
  }

  lemma EofKept(p: Pipeline, e: Event)
    requires ShapeInv(p) && Enabled(p, e)
    ensures EofInv(Next(p, e))
  {
    if !Next(p, e).engine.open && Reader !in Next(p, e).down {
      if p.engine.open { FwdCloses(p, e); } else { PassedKept(p, e); }
    }
  }

  lemma ShapeKept(p: Pipeline, e: Event)
    requires ShapeInv(p) && Enabled(p, e)
    ensures ShapeInv(Next(p, e))
  {
    BoundsKept(p, e);
    LanesKept(p, e);
    ClientKept(p, e);
    EofKept(p, e);
  }

  // -- signals ----------------------------------------------------------------

  lemma SigsOne(q: seq<Frame>, x: Frame)
    ensures SigsOf(q + [x]) == SigsOf(q) + SigsOf([x])
    ensures SigsOf([x]) == if x.Sig? then [x.signal] else []
  {
    ConcatSigs(q, [x]);
  }

  lemma SigsTail(q: seq<Frame>)
    requires q != []
    ensures SigsOf(q) == SigsOf([q[0]]) + SigsOf(q[1..])
  {
    assert q == [q[0]] + q[1..];
    ConcatSigs([q[0]], q[1..]);
  }

  /** The downstream and upstream parts of the signals' way, around the two
      places where a full lane may drop one. */
  function TrackFront(p: Pipeline): seq<FC.Signal> {
    p.serve.killed + p.serve.ctrl + SigsOf(p.serve.hold) + SigsOf(p.engine.ssh) + SigsOf(p.engine.hold)
    + p.engine.inband
  }

  /** The way from the client to the main loop's signal lane, behind `front`. */
  function Upstream(front: seq<FC.Signal>, p: Pipeline): seq<FC.Signal> {
    front + p.engine.sigLane + p.reader.ctrl + SigsOf(p.reader.hold) + SigsOf(p.client.ipc)
  }

  function TrackBack(p: Pipeline): seq<FC.Signal> {
    p.reader.ctrl + SigsOf(p.reader.hold) + SigsOf(p.client.ipc)
  }

  lemma UpstreamSplit(front: seq<FC.Signal>, p: Pipeline)
    ensures Upstream(front, p) == front + p.engine.sigLane + TrackBack(p)
  {
    var f := front + p.engine.sigLane;
    Assoc(f, p.reader.ctrl, SigsOf(p.reader.hold));
    Assoc(f, p.reader.ctrl + SigsOf(p.reader.hold), SigsOf(p.client.ipc));
  }

  lemma DropOne<T>(u: seq<T>, x: T, v: seq<T>, w: seq<T>, b: seq<T>)
    requires Thinned(u + ([x] + v) + w, b)
    ensures Thinned(u + v + w, b)
  {
    Assoc(u, [x], v);
    Assoc(u + [x], v, w);
    Assoc(u, v, w);
    ThinnedDrop(u, x, v + w, b);
  }

  /** A signal dropped for lack of room leaves the rest in order: at the main
      loop, */
  lemma LoopDrops(front: seq<FC.Signal>, p: Pipeline)
    requires Thinned(Upstream(front, p), p.client.signals)
    requires Enabled(p, LoopSignal) && |p.engine.sigLane| >= SIGNALS
    ensures Thinned(Upstream(front, Next(p, LoopSignal)), p.client.signals)
  {
    var u, c := front + p.engine.sigLane, p.reader.ctrl;
    var h, i := SigsOf(p.reader.hold), SigsOf(p.client.ipc);
    Assoc(u + c, h, i);
    Assoc(u + c[1..], h, i);
    assert c == [c[0]] + c[1..];
    DropOne(u, c[0], c[1..], h + i, p.client.signals);
  }

  /** and at the signal sender. */
  lemma SenderDrops(front: seq<FC.Signal>, p: Pipeline)
    requires Thinned(Upstream(front, p), p.client.signals) && Enabled(p, SenderSignal)
    ensures Thinned(Upstream(front, Next(p, SenderSignal)), p.client.signals)
  {
    var c := p.engine.sigLane;
    UpstreamSplit(front, p);
    UpstreamSplit(front, Next(p, SenderSignal));
    assert c == [c[0]] + c[1..];
    DropOne(front, c[0], c[1..], TrackBack(p), p.client.signals);
  }

  /** Or the sender moves it on. */
  lemma SenderMoves(front: seq<FC.Signal>, p: Pipeline)
    requires Enabled(p, SenderSignal)
    ensures Upstream(front + [p.engine.sigLane[0]], Next(p, SenderSignal)) == Upstream(front, p)
  {
    var c := p.engine.sigLane;
    assert c == [c[0]] + c[1..];
    Assoc(front, [c[0]], c[1..]);
  }

  /** One signal moved from the head of a lane to the end of the next. */
  lemma ShiftSig(front: seq<FC.Signal>, a: seq<FC.Signal>, b: seq<FC.Signal>, x: FC.Signal, c: seq<FC.Signal>)
    requires b == [x] + c
    ensures front + a + b == front + (a + [x]) + c
  {
    Assoc(front, a, [x]);
    Assoc(front + a, [x], c);
  }

  /** The same between two queues of frames, whatever the frame is. */
  lemma ShiftFrame(front: seq<FC.Signal>, q1: seq<Frame>, q2: seq<Frame>)
    requires q2 != []
    ensures front + SigsOf(q1) + SigsOf(q2) == front + SigsOf(q1 + [q2[0]]) + SigsOf(q2[1..])
  {
    var x := SigsOf([q2[0]]);
    ConcatSigs(q1, [q2[0]]);
    SigsTail(q2);
    Assoc(SigsOf(q1), x, SigsOf(q2[1..]));
    Assoc(front, SigsOf(q1), SigsOf(q2));
    Assoc(front, SigsOf(q1) + x, SigsOf(q2[1..]));
  }

  lemma SigsHold(q: seq<Frame>)
    requires |q| == 1
    ensures SigsOf(q) == if q[0].Sig? then [q[0].signal] else []
    ensures SigsOf(q[1..]) == []
  {
  }

  /** Every other step keeps the signals on their way exactly as they are. */
  lemma SignalPassesServe(p: Pipeline, e: Event)
    requires BoundsInv(p) && LanesInv(p) && Enabled(p, e)
    requires e.FwdSent? || e.RouteTake? || e.RoutePut? || e.ServeKill? || e.FwdStdin? || e.FwdSignal?
    ensures TrackFront(Next(p, e)) == TrackFront(p)
  {
    var front := p.serve.killed + p.serve.ctrl;
    match e {
      case ServeKill =>
        ShiftSig([], p.serve.killed, p.serve.ctrl, p.serve.ctrl[0], p.serve.ctrl[1..]);
        var longer := p.serve.killed + [p.serve.ctrl[0]];
        assert [] + p.serve.killed == p.serve.killed && [] + longer == longer;
      case RoutePut =>
        SigsHold(p.serve.hold);
        if p.serve.hold[0].Sig? {
          ShiftSig(p.serve.killed, p.serve.ctrl, SigsOf(p.serve.hold), p.serve.hold[0].signal, []);
        }
      case RouteTake => ShiftFrame(front, p.serve.hold, p.engine.ssh);
      case FwdSent => ShiftFrame(front + SigsOf(p.serve.hold), p.engine.ssh, p.engine.hold);
      case FwdStdin => SigsOne(p.engine.hold, p.reader.lane[0]);
      case FwdSignal =>
        SigsOne(p.engine.hold, Sig(p.engine.inband[0]));
        var c := p.engine.inband;
        ShiftSig(front + SigsOf(p.serve.hold) + SigsOf(p.engine.ssh), SigsOf(p.engine.hold), c, c[0], c[1..]);
    }
  }

  /** The reader and the main loop keep what is on the way in order. */
  lemma UpstreamKept(front: seq<FC.Signal>, p: Pipeline, e: Event)
    requires BoundsInv(p) && Enabled(p, e)
    requires (e.LoopSignal? && |p.engine.sigLane| < SIGNALS) || e.ReaderTake? || e.ReaderPut? || e.ReaderSeesEnd?
             || e.ClientRead? || e.ClientEof?
    ensures Upstream(front, Next(p, e)) == Upstream(front, p)
  {
    match e {
      case LoopSignal => ShiftSig(front, p.engine.sigLane, p.reader.ctrl, p.reader.ctrl[0], p.reader.ctrl[1..]);
      case ReaderTake => ShiftFrame(front + p.engine.sigLane + p.reader.ctrl, p.reader.hold, p.client.ipc);
      case ReaderPut =>
        SigsHold(p.reader.hold);
        if p.reader.hold[0].Sig? {
          ShiftSig(front + p.engine.sigLane, p.reader.ctrl, SigsOf(p.reader.hold), p.reader.hold[0].signal, []);
        }
      case ReaderSeesEnd => SigsOne(p.reader.hold, Eof);
      case ClientRead(d) => SigsOne(p.client.ipc, Data(d));
      case ClientEof => SigsOne(p.client.ipc, Eof);
    }
  }

  lemma ClientSends(front: seq<FC.Signal>, p: Pipeline, s: FC.Signal)
    requires Thinned(Upstream(front, p), p.client.signals) && Enabled(p, ClientSignal(s))
    ensures var n := Next(p, ClientSignal(s)); Thinned(Upstream(front, n), n.client.signals)
  {
    SigsOne(p.client.ipc, Sig(s));
    Assoc(front + p.engine.sigLane + p.reader.ctrl + SigsOf(p.reader.hold), SigsOf(p.client.ipc), [s]);
    ThinnedBoth(Upstream(front, p), p.client.signals, s);
  }

  /** Events of the client, the reader and the two signal lanes. */
  predicate MovesUpstream(e: Event) {
    || e.ClientSignal? || e.ClientRead? || e.ClientEof?
    || e.ReaderTake? || e.ReaderPut? || e.ReaderSeesEnd? || e.LoopSignal?
  }

  lemma UpstreamThinned(front: seq<FC.Signal>, p: Pipeline, e: Event)
    requires BoundsInv(p) && Enabled(p, e) && MovesUpstream(e)
    requires Thinned(Upstream(front, p), p.client.signals)
    ensures var n := Next(p, e); Thinned(Upstream(front, n), n.client.signals)
  {
    if e.ClientSignal? {
      ClientSends(front, p, e.s);
    } else if e.LoopSignal? && |p.engine.sigLane| >= SIGNALS {
      LoopDrops(front, p);
    } else {
      UpstreamKept(front, p, e);
    }
  }

  lemma TrackIsUpstream(p: Pipeline)
    ensures Track(p) == Upstream(TrackFront(p), p)
  {
  }

  lemma FrontSame(p: Pipeline, e: Event)
    requires Enabled(p, e)
    requires MovesUpstream(e) || (e.SenderSignal? && |p.engine.inband| >= SIGNALS)
    ensures TrackFront(Next(p, e)) == TrackFront(p)
  {
  }

  lemma SenderAppends(p: Pipeline)
    requires Enabled(p, SenderSignal) && |p.engine.inband| < SIGNALS
    ensures TrackFront(Next(p, SenderSignal)) == TrackFront(p) + [p.engine.sigLane[0]]
  {
    Assoc(p.serve.killed + p.serve.ctrl + SigsOf(p.serve.hold) + SigsOf(p.engine.ssh) + SigsOf(p.engine.hold),
          p.engine.inband, [p.engine.sigLane[0]]);
  }

  lemma SenderKeepsInband(p: Pipeline)
    requires Thinned(Upstream(TrackFront(p), p), p.client.signals) && Enabled(p, SenderSignal)
    ensures var n := Next(p, SenderSignal); Thinned(Upstream(TrackFront(n), n), n.client.signals)
  {
    if |p.engine.inband| < SIGNALS {
      SenderAppends(p);
      SenderMoves(TrackFront(p), p);
    } else {
      FrontSame(p, SenderSignal);
      SenderDrops(TrackFront(p), p);
    }
  }

  lemma InbandKept(p: Pipeline, e: Event)
    requires Thinned(Upstream(TrackFront(p), p), p.client.signals)
    requires BoundsInv(p) && LanesInv(p) && Enabled(p, e)
    ensures var n := Next(p, e); Thinned(Upstream(TrackFront(n), n), n.client.signals)
  {
    if MovesUpstream(e) {
      FrontSame(p, e);
      UpstreamThinned(TrackFront(p), p, e);
    } else if e.SenderSignal? {
      SenderKeepsInband(p);
    } else {
      DownstreamKept(p, e);
    }
  }

  /** What is downstream of the sender leaves the rest alone. */
  lemma DownstreamKept(p: Pipeline, e: Event)
    requires BoundsInv(p) && LanesInv(p) && Enabled(p, e) && !MovesUpstream(e) && !e.SenderSignal?
    ensures var n := Next(p, e); Upstream(TrackFront(n), n) == Upstream(TrackFront(p), p)
    ensures Next(p, e).client.signals == p.client.signals
  {
    if e.FwdSent? || e.RouteTake? || e.RoutePut? || e.ServeKill? || e.FwdStdin? || e.FwdSignal? {
      SignalPassesServe(p, e);
    }
  }

  /** The interrupts sent out of band, and the signals that may join them. */
  function OobTrack(p: Pipeline): seq<FC.Signal> {
    Upstream(p.engine.oob, p)
  }

  lemma OobKept(p: Pipeline, e: Event)
    requires Thinned(OobTrack(p), p.client.signals) && BoundsInv(p) && Enabled(p, e)
    ensures Thinned(OobTrack(Next(p, e)), Next(p, e).client.signals)
  {
    if MovesUpstream(e) {
      UpstreamThinned(p.engine.oob, p, e);
    } else if e.SenderSignal? {
      if p.engine.sigLane[0].Int? { SenderMoves(p.engine.oob, p); } else { SenderDrops(p.engine.oob, p); }
    }
  }

  lemma OnlyIntsKept(p: Pipeline, e: Event)
    requires OnlyInts(p.engine.oob) && Enabled(p, e)
    ensures OnlyInts(Next(p, e).engine.oob)
  {
  }

  lemma SignalKept(p: Pipeline, e: Event)
    requires SignalInv(p) && BoundsInv(p) && LanesInv(p) && Enabled(p, e)
    ensures SignalInv(Next(p, e))
  {
    TrackIsUpstream(p);
    TrackIsUpstream(Next(p, e));
    InbandKept(p, e);
    OobKept(p, e);
    OnlyIntsKept(p, e);
  }

  /** A full lane drops a signal: the main loop's, or the forwarder's. */
  predicate Drops(p: Pipeline, e: Event) {
    (e.LoopSignal? && |p.engine.sigLane| >= SIGNALS) || (e.SenderSignal? && |p.engine.inband| >= SIGNALS)
  }

  /** Every other step keeps each signal on the in-band way, in its place. */
  lemma TrackStep(p: Pipeline, e: Event)
    requires BoundsInv(p) && LanesInv(p) && Enabled(p, e) && !Drops(p, e)
    ensures Track(Next(p, e)) == Track(p) + (if e.ClientSignal? then [e.s] else [])
  {
    var front := TrackFront(p);
    TrackIsUpstream(p);
    TrackIsUpstream(Next(p, e));
    if e.ClientSignal? {
      FrontSame(p, e);
      SigsOne(p.client.ipc, Sig(e.s));
      Assoc(front + p.engine.sigLane + p.reader.ctrl + SigsOf(p.reader.hold), SigsOf(p.client.ipc), [e.s]);
    } else {
      assert Track(p) + [] == Track(p);
      if MovesUpstream(e) {
        FrontSame(p, e);
        UpstreamKept(front, p, e);
      } else if e.SenderSignal? {
        SenderAppends(p);
        SenderMoves(front, p);
      } else {
        DownstreamKept(p, e);
      }
    }
  }

  ghost predicate NoneDropped(p: Pipeline, events: seq<Event>)
    decreases |events|
  {
    events == [] || (Enabled(p, events[0]) && !Drops(p, events[0]) && NoneDropped(Next(p, events[0]), events[1..]))
  }

  lemma {:induction false} TrackRun(p: Pipeline, events: seq<Event>)
    requires BoundsInv(p) && LanesInv(p) && NoneDropped(p, events) && Track(p) == p.client.signals
    ensures Run(p, events).Some? && Track(Run(p, events).value) == Run(p, events).value.client.signals
    decreases |events|
  {
    if events != [] {
      TrackStep(p, events[0]);
      BoundsKept(p, events[0]);
      LanesKept(p, events[0]);
      assert p.client.signals + [] == p.client.signals;
      TrackRun(Next(p, events[0]), events[1..]);
    }
  }

  /** Only a full lane loses a signal: in every run without such a step, hops
      failing or not, all the client sent is delivered or on its way, in order. */
  lemma SignalsLostOnlyAtFullLanes(room: Room, events: seq<Event>)
    requires NoneDropped(Start(room), events)
    ensures Run(Start(room), events).Some?
    ensures Track(Run(Start(room), events).value) == Run(Start(room), events).value.client.signals
  {
    TrackRun(Start(room), events);
  }

  // -- all runs ---------------------------------------------------------------

  lemma {:induction false} RunKeepsInv(p: Pipeline, events: seq<Event>)
    requires Inv(p)
    ensures Run(p, events).Some? ==> Inv(Run(p, events).value)
    decreases |events|
  {
    if events != [] && Enabled(p, events[0]) {
      StdinKept(p, events[0]);
      ShapeKept(p, events[0]);
      SignalKept(p, events[0]);
      RunKeepsInv(Next(p, events[0]), events[1..]);
    }
  }

  lemma StartInv(room: Room)
    ensures Inv(Start(room))
  {
  }

  /** In every run, failures included: what the child has read, what is being
      written to it, and the data still on its way are together exactly what
      the client sent, in order; so the child has read a prefix of it. In-band
      signals are delivered in the order they were sent, each at most once; so
      are the out-of-band requests, all of them interrupts. */
  lemma NothingLostOrReordered(room: Room, events: seq<Event>)
    requires Run(Start(room), events).Some?
    ensures var p := Run(Start(room), events).value;
            && p.client.sent == p.child.got + p.child.hold + BytesOf(Stream(p))
            && p.child.got <= p.client.sent
            && Thinned(p.serve.killed, p.client.signals)
            && Thinned(p.engine.oob, p.client.signals) && OnlyInts(p.engine.oob)
  {
    StartInv(room);
    RunKeepsInv(Start(room), events);
    var p := Run(Start(room), events).value;
    KilledInOrder(p);
    Assoc(p.child.got, p.child.hold, BytesOf(Stream(p)));
  }

  lemma FrontInOrder(front: seq<FC.Signal>, p: Pipeline)
    requires Thinned(Upstream(front, p), p.client.signals)
    ensures Thinned(front, p.client.signals)
  {
    UpstreamSplit(front, p);
    Assoc(front, p.engine.sigLane, TrackBack(p));
    ThinnedFront(front, p.engine.sigLane + TrackBack(p), p.client.signals);
  }

  lemma KilledInOrder(p: Pipeline)
    requires SignalInv(p)
    ensures Thinned(p.serve.killed, p.client.signals) && Thinned(p.engine.oob, p.client.signals)
  {
    TrackIsUpstream(p);
    FrontInOrder(TrackFront(p), p);
    KilledFirst(p);
    ThinnedFront(p.serve.killed, TrackFront(p)[|p.serve.killed|..], p.client.signals);
    FrontInOrder(p.engine.oob, p);
  }

  lemma KilledFirst(p: Pipeline)
    ensures p.serve.killed <= TrackFront(p)
    ensures TrackFront(p) == p.serve.killed + TrackFront(p)[|p.serve.killed|..]
  {
  }

  lemma {:induction false} ThinnedFront<T>(a: seq<T>, rest: seq<T>, b: seq<T>)
    requires Thinned(a + rest, b)
    ensures Thinned(a, b)
    decreases |rest|
  {
    if rest == [] {
      assert a + rest == a;
    } else {
      ThinnedShorter(a + rest, b);
      assert (a + rest)[..|a + rest| - 1] == a + rest[..|rest| - 1];
      ThinnedFront(a, rest[..|rest| - 1], b);
    }
  }

  /** Without a failed hop the child sees end of input only after every byte
      the client sent, and only once the client's input has ended. */
  lemma EofAfterAllData(room: Room, events: seq<Event>)
    requires Run(Start(room), events).Some?
    ensures var p := Run(Start(room), events).value;
            p.child.eof && p.down == {} ==> p.child.got == p.client.sent && p.ended && !p.client.open
  {
    StartInv(room);
    RunKeepsInv(Start(room), events);
    var p := Run(Start(room), events).value;
    if p.child.eof && p.down == {} {
      OnlyEofs(Stream(p));
      assert p.child.got + [] + [] == p.child.got;
    }
  }

  lemma {:induction false} OnlyEofs(q: seq<Frame>)
    requires forall k | 0 <= k < |q| :: q[k].Eof?
    ensures BytesOf(q) == []
  {
    if q != [] {
      assert q[0].Eof?;
      OnlyEofs(q[1..]);
    }
  }

  /** Events of the pipeline itself, as opposed to the client or a failure. The
      child takes what the pump writes only while it is `taking`. */
  predicate Internal(e: Event, taking: bool) {
    !e.ClientRead? && !e.ClientEof? && !e.ClientSignal? && !e.ClientGone? && !e.Fail? && (e.PumpWrite? ==> taking)
  }

  ghost predicate CanMove(p: Pipeline, taking: bool) {
    exists e: Event | Internal(e, taking) :: Enabled(p, e)
  }

  lemma Stuck(p: Pipeline, e: Event, taking: bool)
    requires !CanMove(p, taking) && Internal(e, taking)
    ensures !Enabled(p, e)
  {
  }

  /** While the child reads, the bounded lanes never wedge each other: without
      a failed hop, a pipeline in which nothing can move any more has delivered
      everything the client sent, and if the client's input has ended, its end
      as well. */
  lemma NeverWedged(room: Room, events: seq<Event>)
    requires Run(Start(room), events).Some? && room.ssh > 0
    requires var p := Run(Start(room), events).value; p.down == {} && !CanMove(p, true)
    ensures var p := Run(Start(room), events).value;
            p.child.got == p.client.sent && (!p.client.open ==> p.child.eof)
  {
    var p := Run(Start(room), events).value;
    forall e: Event | Internal(e, false) ensures !Enabled(p, e) {
      Stuck(p, e, true);
    }
    EofAfterAllData(room, events);
    Stuck(p, PumpWrite(1), true);
    RestsExactly(room, events);
  }

  /** A child that does not read stops the pipeline exactly by what its pump
      holds for it: at rest, everything has been delivered or that is not
      empty. */
  lemma RestsExactly(room: Room, events: seq<Event>)
    requires Run(Start(room), events).Some? && room.ssh > 0
    requires var p := Run(Start(room), events).value; p.down == {} && !CanMove(p, false)
    ensures var p := Run(Start(room), events).value;
            && (p.child.got == p.client.sent <==> p.child.hold == [])
            && (p.child.hold == [] && !p.client.open ==> p.child.eof)
  {
    StartInv(room);
    RunKeepsInv(Start(room), events);
    RoomFixed(Start(room), events);
    EofAfterAllData(room, events);
    var p := Run(Start(room), events).value;
    if p.child.hold != [] {
      assert |p.client.sent| >= |p.child.got| + |p.child.hold|;
    } else if !p.child.eof {
      Drained(p);
      assert Stream(p) == [];
      assert p.child.got + [] + [] == p.child.got;
      assert !HasEof(Stream(p));
      Stuck(p, ReaderSeesEnd, false);
    }
  }

  lemma {:induction false} RoomFixed(p: Pipeline, events: seq<Event>)
    requires Run(p, events).Some?
    ensures Run(p, events).value.room == p.room
    decreases |events|
  {
    if events != [] {
      RoomFixed(Next(p, events[0]), events[1..]);
    }
  }

  lemma Drained(p: Pipeline)
    requires Inv(p) && p.down == {} && !CanMove(p, false) && !p.child.eof && p.child.hold == [] && p.room.ssh > 0
    ensures p.serve.lane == [] && p.serve.hold == [] && p.engine.ssh == [] && p.engine.hold == []
    ensures p.reader.lane == [] && p.reader.hold == [] && p.client.ipc == []
  {
    ServeDrained(p);
    SignalsDrained(p);
    Stuck(p, FwdStdin, false);
    Stuck(p, ReaderPut, false);
    Stuck(p, ReaderTake, false);
  }

  lemma SignalsDrained(p: Pipeline)
    requires p.down == {} && !CanMove(p, false) && p.engine.hold == []
    ensures p.engine.inband == [] && p.reader.ctrl == []
  {
    Stuck(p, FwdSignal, false);
    Stuck(p, LoopSignal, false);
  }

  lemma ServeDrained(p: Pipeline)
    requires p.down == {} && !CanMove(p, false) && !p.child.eof && p.child.hold == [] && p.room.ssh > 0
    ensures p.serve.lane == [] && p.serve.hold == [] && p.engine.ssh == [] && p.engine.hold == []
  {
    Stuck(p, PumpTake, false);
    Stuck(p, ServeKill, false);
    Stuck(p, RoutePut, false);
    Stuck(p, RouteTake, false);
    Stuck(p, FwdSent, false);
  }

  // -- the task loops ---------------------------------------------------------

  /** The pipeline moved by one event, or not at all. */
  ghost predicate Follows(p: Pipeline, q: Pipeline, did: Option<Event>) {
    match did
    case None => q == p
    case Some(e) => Enabled(p, e) && q == Next(p, e)
  }

  /** The state the tasks share. Each method is one turn of one task's loop: it
      takes the branch the task would take, and does nothing only when the
      task has to wait. */
  class Tasks {
    var client: Client
    var reader: Intake
    var engine: Engine
    var serve: Serve
    var child: Child
    var ended: bool
    var down: set<Hop>
    const room: Room

    function View(): Pipeline
      reads this
    {
      Pipeline(client, reader, engine, serve, child, ended, down, room)
    }

    constructor (room: Room)
      ensures View() == Start(room)
    {
      this.room := room;
      client := Client([], [], true, false, []);
      reader := Intake([], false, [], []);
      engine := Engine([], [], [], [], true, []);
      serve := Serve([], [], [], []);
      child := Child([], false, [], false);
      ended, down := false, {};
    }

    /** The client-frame reader: stdin frames and the end of the connection go
        to the stdin lane, signals to the main loop; a full lane is awaited
        with the frame in hand. */
    method FrameReader() returns (ghost did: Option<Event>)
      requires Reader !in down
      modifies this`client, this`reader, this`ended
      ensures Follows(old(View()), View(), did)
      ensures did.None? ==>
        !Enabled(View(), ReaderTake) && !Enabled(View(), ReaderPut) && !Enabled(View(), ReaderSeesEnd)
    {
      did := None;
      if reader.hold != [] {
        var x := reader.hold[0];
        if x.Sig? {
          if |reader.ctrl| < CTRL {
            reader := reader.(hold := reader.hold[1..], ctrl := reader.ctrl + [x.signal]);
            did := Some(ReaderPut);
          }
        } else if |reader.lane| < LANE {
          reader := reader.(hold := reader.hold[1..], lane := reader.lane + [x]);
          did := Some(ReaderPut);
        }
      } else if client.ipc != [] {
        reader := reader.(hold := reader.hold + [client.ipc[0]]);
        client := client.(ipc := client.ipc[1..]);
        did := Some(ReaderTake);
      } else if client.shut && !reader.done {
        reader := reader.(hold := reader.hold + [Eof], done := true);
        ended := true;
        did := Some(ReaderSeesEnd);
      }
    }

    /** The signal sender: an interrupt goes out as a channel request first;
        every signal is then relayed in-band, unless that lane is full. */
    method SignalSender() returns (ghost did: Option<Event>)
      requires Forwarder !in down
      modifies this`engine
      ensures Follows(old(View()), View(), did)
      ensures did.None? ==> !Enabled(View(), SenderSignal)
    {
      did := None;
      if engine.sigLane != [] {
        var sig := engine.sigLane[0];
        var oob, inband := engine.oob, engine.inband;
        if sig.Int? {
          oob := oob + [sig];
        }
        if |inband| < SIGNALS {
          inband := inband + [sig];
        }
        engine := engine.(sigLane := engine.sigLane[1..], oob := oob, inband := inband);
        did := Some(SenderSignal);
      }
    }

    /** The forwarder: a frame being written is finished first; then signals
        come before stdin. After the Eof only signals are forwarded. */
    method Forward() returns (ghost did: Option<Event>)
      requires Forwarder !in down
      modifies this`engine, this`reader
      ensures Follows(old(View()), View(), did)
      ensures did.None? ==> !Enabled(View(), FwdSent) && !Enabled(View(), FwdSignal)
                            && !Enabled(View(), FwdStdin) && !Enabled(View(), FwdLaneClosed)
    {
      did := None;
      if engine.hold != [] {
        if |engine.ssh| < room.ssh {
          engine := engine.(hold := engine.hold[1..], ssh := engine.ssh + [engine.hold[0]]);
          did := Some(FwdSent);
        }
      } else if engine.inband != [] {
        engine := engine.(inband := engine.inband[1..], hold := engine.hold + [Sig(engine.inband[0])]);
        did := Some(FwdSignal);
      } else if engine.open {
        if reader.lane != [] {
          var x := reader.lane[0];
          reader := reader.(lane := reader.lane[1..]);
          engine := engine.(hold := engine.hold + [x], open := !x.Eof?);
          did := Some(FwdStdin);
        } else if Reader in down {
          engine := engine.(open := false);
          did := Some(FwdLaneClosed);
        }
      }
    }

    /** serve's transport reader. A stdin frame for a pump that is gone ends
        it, signals behind that frame or not. */
    method Route() returns (ghost did: Option<Event>)
      requires Router !in down
      modifies this`engine, this`serve, this`down
      ensures Follows(old(View()), View(), did)
      ensures did.None? ==>
        !Enabled(View(), RouteTake) && !Enabled(View(), RoutePut) && !Enabled(View(), RouterLeaves)
      ensures Router in down <==> old(serve.hold != [] && !serve.hold[0].Sig? && child.eof)
    {
      did := None;
      if serve.hold != [] {
        var x := serve.hold[0];
        if x.Sig? {
          if |serve.ctrl| < CTRL {
            serve := serve.(hold := serve.hold[1..], ctrl := serve.ctrl + [x.signal]);
            did := Some(RoutePut);
          }
        } else if child.eof {
          down := down + {Router};
          did := Some(RouterLeaves);
        } else if |serve.lane| < SERVE_LANE {
          serve := serve.(hold := serve.hold[1..], lane := serve.lane + [x]);
          did := Some(RoutePut);
        }
      } else if engine.ssh != [] {
        serve := serve.(hold := serve.hold + [engine.ssh[0]]);
        engine := engine.(ssh := engine.ssh[1..]);
        did := Some(RouteTake);
      }
    }

    /** The child stdin pump: writes what it holds, takes the next message,
        and drops the write end on Eof or when its lane is closed. `n` is how
        much the child's pipe takes. */
    method PumpStdin(n: nat) returns (ghost did: Option<Event>)
      requires Pump !in down && !child.eof
      modifies this`serve, this`child
      ensures Follows(old(View()), View(), did)
      ensures did.None? && n > 0 ==>
        !Enabled(View(), PumpTake) && !Enabled(View(), PumpWrite(1)) && !Enabled(View(), PumpLaneClosed)
    {
      did := None;
      if child.hold != [] {
        var m := Min(n, |child.hold|);
        if m > 0 {
          child := child.(got := child.got + child.hold[..m], hold := child.hold[m..]);
          did := Some(PumpWrite(m));
        }
      } else if serve.lane != [] {
        var x := serve.lane[0];
        serve := serve.(lane := serve.lane[1..]);
        if x.Data? {
          child := child.(hold := x.bytes);
        } else if x.Eof? {
          child := child.(taken := true, eof := true);
        }
        did := Some(PumpTake);
      } else if Router in down {
        child := child.(eof := true);
        did := Some(PumpLaneClosed);
      }
    }
  }
}
