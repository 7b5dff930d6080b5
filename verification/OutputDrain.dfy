/** serve's output side: two pumps, ping replies, the single writer, the drain
    after the child has exited, and the Exit frame behind everything else. */
module OutputDrain {
  import opened Prelude
  import FC = FrameCodec

  const CHANNEL: nat := 256
  const READ_MAX: nat := 32 * 1024
  const DRAIN_GRACE: nat := 2000

  /** One child pipe and its pump. */
  datatype Pump = Pump(
    total: Bytes,                   // everything the child writes to this pipe
    unread: Bytes,                  // the part the pump has not read
    hold: seq<Bytes>,               // a chunk read and not yet queued
    over: bool,                     // the pump task has ended
    clean: bool,                    // it ended by end of file
    broken: bool)                   // it ended by a read error

  datatype Phase = Running | Draining | Closing(drained: bool) | Flushed(drained: bool) | Done(drained: bool)

  datatype Output = Output(
    out: Pump,
    err: Pump,
    channel: seq<FC.EventFrame>,
    writing: seq<FC.EventFrame>,    // frame taken by the writer
    wire: seq<FC.EventFrame>,
    router: bool,                   // the router still holds a sender
    phase: Phase)

  datatype Event =
    | Read(stderr: bool, n: nat)
    | Queue(stderr: bool)
    | EndOfFile(stderr: bool)
    | ReadError(stderr: bool)
    | PumpGone(stderr: bool)        // an aborted pump stops
    | Pong(pid: nat)
    | RouterGone
    | Take
    | Write
    | ChildExits
    | DrainDone
    | DrainStalled
    | WriterEnds
    | WriteExit(report: FC.ExitReport)

  function Start(out: Bytes, err: Bytes): Output {
    Output(Pump(out, out, [], false, false, false), Pump(err, err, [], false, false, false), [], [], [], true, Running)
  }

  function PumpOf(o: Output, stderr: bool): Pump {
    if stderr then o.err else o.out
  }

  function SetPump(o: Output, stderr: bool, p: Pump): Output {
    if stderr then o.(err := p) else o.(out := p)
  }

  function Framed(stderr: bool, d: Bytes): FC.EventFrame {
    if stderr then FC.Stderr(d) else FC.Stdout(d)
  }

  predicate Aborting(ph: Phase) {
    !ph.Running? && !ph.Draining? && !ph.drained
  }

  predicate Enabled(o: Output, e: Event) {
    match e
    case Read(s, n) => var p := PumpOf(o, s); !p.over && p.hold == [] && 0 < n <= Min(READ_MAX, |p.unread|)
    case Queue(s) => var p := PumpOf(o, s); !p.over && p.hold != [] && |o.channel| < CHANNEL
    case EndOfFile(s) => var p := PumpOf(o, s); !p.over && p.hold == [] && p.unread == []
    case ReadError(s) => var p := PumpOf(o, s); !p.over && p.hold == []
    case PumpGone(s) => !PumpOf(o, s).over && Aborting(o.phase)
    case Pong(_) => o.router && |o.channel| < CHANNEL
    case RouterGone => o.router
    case Take => o.writing == [] && o.channel != [] && (o.phase.Running? || o.phase.Draining? || o.phase.Closing?)
    case Write => o.writing != []
    case ChildExits => o.phase.Running?
    case DrainDone => o.phase.Draining? && o.out.over && o.err.over
    case DrainStalled => o.phase.Draining?
    case WriterEnds =>
      o.phase.Closing? && o.channel == [] && o.writing == [] && !o.router && o.out.over && o.err.over
    case WriteExit(_) => o.phase.Flushed?
  }

  function Next(o: Output, e: Event): Output
    requires Enabled(o, e)
  {
    match e
    case Read(s, n) =>
      var p := PumpOf(o, s);
      SetPump(o, s, p.(hold := [p.unread[..n]], unread := p.unread[n..]))
    case Queue(s) =>
      var p := PumpOf(o, s);
      SetPump(o, s, p.(hold := p.hold[1..])).(channel := o.channel + [Framed(s, p.hold[0])])
    case EndOfFile(s) => SetPump(o, s, PumpOf(o, s).(over := true, clean := true))
    case ReadError(s) => SetPump(o, s, PumpOf(o, s).(over := true, broken := true))
    case PumpGone(s) => SetPump(o, s, PumpOf(o, s).(over := true))
    case Pong(pid) => o.(channel := o.channel + [FC.Pong(pid)])
    case RouterGone => o.(router := false)
    case Take => o.(writing := [o.channel[0]], channel := o.channel[1..])
    case Write => o.(wire := o.wire + [o.writing[0]], writing := o.writing[1..])
    case ChildExits => o.(phase := Draining)
    case DrainDone => o.(phase := Closing(true))
    case DrainStalled => o.(phase := Closing(false))
    case WriterEnds => o.(phase := Flushed(o.phase.drained))
    case WriteExit(report) => o.(wire := o.wire + [FC.Exit(report)], phase := Done(o.phase.drained))
  }

  function Run(o: Output, events: seq<Event>): Option<Output>
    decreases |events|
  {
    if events == [] then Some(o)
    else if Enabled(o, events[0]) then Run(Next(o, events[0]), events[1..])
    else None
  }

  // -- payloads ---------------------------------------------------------------

  /** The bytes a list of frames carries for one stream. */
  function Payload(stderr: bool, frames: seq<FC.EventFrame>): Bytes {
    if frames == [] then []
    else Carried(stderr, frames[0]) + Payload(stderr, frames[1..])
  }

  function Carried(stderr: bool, f: FC.EventFrame): Bytes {
    match f
    case Stdout(d) => if stderr then [] else d
    case Stderr(d) => if stderr then d else []
    case _ => []
  }

  lemma {:induction false} PayloadConcat(stderr: bool, a: seq<FC.EventFrame>, b: seq<FC.EventFrame>)
    ensures Payload(stderr, a + b) == Payload(stderr, a) + Payload(stderr, b)
  {
    if a == [] {
      assert a + b == b;
    } else {
      FrontOfConcat(a, b);
      PayloadConcat(stderr, a[1..], b);
      Assoc(Carried(stderr, a[0]), Payload(stderr, a[1..]), Payload(stderr, b));
    }
  }

  lemma PayloadOne(stderr: bool, q: seq<FC.EventFrame>, f: FC.EventFrame)
    ensures Payload(stderr, q + [f]) == Payload(stderr, q) + Carried(stderr, f)
    ensures Payload(stderr, [f]) == Carried(stderr, f)
  {
    PayloadConcat(stderr, q, [f]);
    assert |[f][1..]| == 0;
  }

  lemma PayloadHead(stderr: bool, q: seq<FC.EventFrame>)
    requires q != []
    ensures Payload(stderr, q) == Carried(stderr, q[0]) + Payload(stderr, q[1..])
  {
  }

  /** What one pipe's bytes have become, in order from the wire back. */
  function Accounted(o: Output, stderr: bool): Bytes {
    Payload(stderr, o.wire) + Payload(stderr, o.writing) + Payload(stderr, o.channel)
    + Flatten(PumpOf(o, stderr).hold) + PumpOf(o, stderr).unread
  }

  // -- the invariant ----------------------------------------------------------

  ghost predicate NoExit(q: seq<FC.EventFrame>) {
    forall k | 0 <= k < |q| :: !q[k].Exit?
  }

  /** Stream frames carry at most one read. */
  ghost predicate Small(q: seq<FC.EventFrame>) {
    forall k | 0 <= k < |q| && (q[k].Stdout? || q[k].Stderr?) :: |q[k].data| <= READ_MAX
  }

  ghost predicate PumpInv(o: Output, stderr: bool) {
    var p := PumpOf(o, stderr);
    && Accounted(o, stderr) == p.total
    && |p.hold| <= 1 && (p.hold != [] ==> |p.hold[0]| <= READ_MAX)
    && (p.clean ==> p.over && p.hold == [] && p.unread == [])
    && (p.over && !p.clean && !p.broken ==> Aborting(o.phase))
    && (!o.phase.Running? && !o.phase.Draining? && o.phase.drained ==> p.over)
  }

  ghost predicate LanesInv(o: Output) {
    && |o.writing| <= 1 && |o.channel| <= CHANNEL
    && NoExit(o.channel) && NoExit(o.writing) && Small(o.channel) && Small(o.writing) && Small(o.wire)
  }

  /** The Exit frame is on the wire when the run is done, last, and only then. */
  ghost predicate WireInv(o: Output) {
    if o.phase.Done?
    then o.wire != [] && o.wire[|o.wire| - 1].Exit? && NoExit(o.wire[..|o.wire| - 1])
    else NoExit(o.wire)
  }

  /** Everybody else is gone when the writer has ended. */
  ghost predicate EndInv(o: Output) {
    o.phase.Flushed? || o.phase.Done? ==>
      o.channel == [] && o.writing == [] && !o.router && o.out.over && o.err.over
  }

  ghost predicate PhaseInv(o: Output) {
    LanesInv(o) && WireInv(o) && EndInv(o)
  }

  ghost predicate Inv(o: Output) {
    PumpInv(o, false) && PumpInv(o, true) && PhaseInv(o)
  }

  /** The shared part of the way: channel, writer and wire. */
  lemma SharedKept(o: Output, e: Event, stderr: bool)
    requires PumpInv(o, stderr) && PhaseInv(o) && Enabled(o, e)
    requires e.Take? || e.Write? || e.Pong? || e.WriteExit?
    ensures PumpInv(Next(o, e), stderr)
  {
    match e {
      case Take =>
        PayloadOne(stderr, [], o.channel[0]);
        PayloadHead(stderr, o.channel);
        assert Payload(stderr, o.wire) + [] == Payload(stderr, o.wire);
        Assoc(Payload(stderr, o.wire), Carried(stderr, o.channel[0]), Payload(stderr, o.channel[1..]));
      case Write =>
        PayloadOne(stderr, o.wire, o.writing[0]);
        PayloadHead(stderr, o.writing);
        assert |o.writing[1..]| == 0;
        var written := Payload(stderr, o.wire) + Carried(stderr, o.writing[0]);
        assert written + [] == written;
        assert Carried(stderr, o.writing[0]) + [] == Carried(stderr, o.writing[0]);
      case Pong(pid) =>
        PayloadOne(stderr, o.channel, FC.Pong(pid));
        assert Payload(stderr, o.channel) + [] == Payload(stderr, o.channel);
      case WriteExit(report) =>
        PayloadOne(stderr, o.wire, FC.Exit(report));
        assert Payload(stderr, o.wire) + [] == Payload(stderr, o.wire);
    }
  }

  lemma PumpMoves(o: Output, e: Event)
    requires (e.Read? || e.Queue?) && PumpInv(o, e.stderr) && Enabled(o, e)
    ensures PumpInv(Next(o, e), e.stderr)
  {
    var s := e.stderr;
    var p := PumpOf(o, s);
    var front := Payload(s, o.wire) + Payload(s, o.writing);
    if e.Read? {
      FlattenOne(p.unread[..e.n]);
      assert p.unread[..e.n] + p.unread[e.n..] == p.unread;
      Assoc(front + Payload(s, o.channel), p.unread[..e.n], p.unread[e.n..]);
      assert front + Payload(s, o.channel) + [] == front + Payload(s, o.channel);
    } else {
      assert p.hold == [p.hold[0]];
      FlattenOne(p.hold[0]);
      PayloadOne(s, o.channel, Framed(s, p.hold[0]));
      Assoc(front, Payload(s, o.channel), p.hold[0]);
      assert front + (Payload(s, o.channel) + p.hold[0]) + [] == front + (Payload(s, o.channel) + p.hold[0]);
    }
  }

  /** The other pipe's frames carry nothing for this one. */
  lemma OtherPumpMoves(o: Output, e: Event)
    requires (e.Read? || e.Queue?) && PumpInv(o, !e.stderr) && Enabled(o, e)
    ensures PumpInv(Next(o, e), !e.stderr)
  {
    if e.Queue? {
      PayloadOne(!e.stderr, o.channel, Framed(e.stderr, PumpOf(o, e.stderr).hold[0]));
      assert Payload(!e.stderr, o.channel) + [] == Payload(!e.stderr, o.channel);
    }
  }

  /** Events that move no bytes. */
  lemma PumpStays(o: Output, e: Event, stderr: bool)
    requires PumpInv(o, stderr) && Enabled(o, e)
    requires !e.Take? && !e.Write? && !e.Pong? && !e.WriteExit? && !e.Read? && !e.Queue?
    ensures PumpInv(Next(o, e), stderr)
  {
    assert Accounted(Next(o, e), stderr) == Accounted(o, stderr);
  }

  lemma PumpsKept(o: Output, e: Event, stderr: bool)
    requires PumpInv(o, stderr) && PhaseInv(o) && Enabled(o, e)
    ensures PumpInv(Next(o, e), stderr)
  {
    if e.Take? || e.Write? || e.Pong? || e.WriteExit? {
      SharedKept(o, e, stderr);
    } else if e.Read? || e.Queue? {
      if e.stderr == stderr { PumpMoves(o, e); } else { OtherPumpMoves(o, e); }
    } else {
      PumpStays(o, e, stderr);
    }
  }

  lemma SmallGrows(q: seq<FC.EventFrame>, f: FC.EventFrame)
    requires Small(q) && (f.Stdout? || f.Stderr? ==> |f.data| <= READ_MAX)
    ensures Small(q + [f])
  {
  }

  /** Events that put a frame on the channel. */
  lemma ChannelGrows(o: Output, e: Event)
    requires LanesInv(o) && Enabled(o, e) && (e.Queue? || e.Pong?)
    requires e.Queue? ==> PumpInv(o, e.stderr)
    ensures LanesInv(Next(o, e))
  {
    SmallGrows(o.channel, if e.Queue? then Framed(e.stderr, PumpOf(o, e.stderr).hold[0]) else FC.Pong(e.pid));
  }

  /** Events of the writer. */
  lemma WriterMoves(o: Output, e: Event)
    requires LanesInv(o) && Enabled(o, e) && (e.Take? || e.Write? || e.WriteExit?)
    ensures LanesInv(Next(o, e))
  {
    if e.Write? {
      SmallGrows(o.wire, o.writing[0]);
    } else if e.WriteExit? {
      SmallGrows(o.wire, FC.Exit(e.report));
    }
  }

  lemma LanesSame(o: Output, n: Output)
    requires LanesInv(o) && n.channel == o.channel && n.writing == o.writing && n.wire == o.wire
    ensures LanesInv(n)
  {
  }

  lemma LanesKept(o: Output, e: Event)
    requires LanesInv(o) && PumpInv(o, false) && PumpInv(o, true) && Enabled(o, e)
    ensures LanesInv(Next(o, e))
  {
    if e.Queue? || e.Pong? {
      ChannelGrows(o, e);
    } else if e.Take? || e.Write? || e.WriteExit? {
      WriterMoves(o, e);
    } else {
      LanesSame(o, Next(o, e));
    }
  }

  lemma WireKept(o: Output, e: Event)
    requires LanesInv(o) && WireInv(o) && EndInv(o) && Enabled(o, e)
    ensures WireInv(Next(o, e))
  {
    if e.WriteExit? {
      assert Next(o, e).wire[..|o.wire|] == o.wire;
    }
  }

  lemma EndKept(o: Output, e: Event)
    requires LanesInv(o) && EndInv(o) && Enabled(o, e)
    ensures EndInv(Next(o, e))
  {
  }

  lemma PhaseKept(o: Output, e: Event)
    requires PhaseInv(o) && PumpInv(o, false) && PumpInv(o, true) && Enabled(o, e)
    ensures PhaseInv(Next(o, e))
  {
    LanesKept(o, e);
    WireKept(o, e);
    EndKept(o, e);
  }

  lemma {:induction false} RunKeepsInv(o: Output, events: seq<Event>)
    requires Inv(o)
    ensures Run(o, events).Some? ==> Inv(Run(o, events).value)
    decreases |events|
  {
    if events != [] && Enabled(o, events[0]) {
      PumpsKept(o, events[0], false);
      PumpsKept(o, events[0], true);
      PhaseKept(o, events[0]);
      RunKeepsInv(Next(o, events[0]), events[1..]);
    }
  }

  /** The pipes themselves never change what the child wrote to them. */
  lemma {:induction false} TotalsFixed(o: Output, events: seq<Event>)
    requires Run(o, events).Some?
    ensures Run(o, events).value.out.total == o.out.total && Run(o, events).value.err.total == o.err.total
    decreases |events|
  {
    if events != [] {
      TotalsFixed(Next(o, events[0]), events[1..]);
    }
  }

  /** The wire without the Exit frame at its end. */
  function Body(o: Output): seq<FC.EventFrame> {
    if o.wire == [] then [] else o.wire[..|o.wire| - 1]
  }

  /** What a finished run has put on the wire, given what the child wrote:
      frames with no Exit among them, then exactly one Exit frame; each
      stream's payloads are a prefix of what the child wrote, and all of it
      when the drain saw both pumps finish, unless reading that pipe failed. */
  ghost predicate WireOk(o: Output, out: Bytes, err: Bytes) {
    && o.wire != [] && o.wire[|o.wire| - 1].Exit? && NoExit(Body(o)) && Small(Body(o))
    && Payload(false, Body(o)) <= out && Payload(true, Body(o)) <= err
    && (o.phase.Done? && o.phase.drained && !o.out.broken ==> Payload(false, Body(o)) == out)
    && (o.phase.Done? && o.phase.drained && !o.err.broken ==> Payload(true, Body(o)) == err)
  }

  lemma FinishedWire(out: Bytes, err: Bytes, events: seq<Event>)
    ensures var r := Run(Start(out, err), events);
            r.Some? && r.value.phase.Done? ==> WireOk(r.value, out, err)
  {
    RunKeepsInv(Start(out, err), events);
    var r := Run(Start(out, err), events);
    if r.Some? && r.value.phase.Done? {
      TotalsFixed(Start(out, err), events);
      DoneWire(r.value);
    }
  }

  lemma DoneWire(o: Output)
    requires Inv(o) && o.phase.Done?
    ensures WireOk(o, o.out.total, o.err.total)
  {
    BodyPayload(o, false);
    BodyPayload(o, true);
    assert PumpOf(o, false) == o.out && PumpOf(o, true) == o.err;
  }

  lemma BodyPayload(o: Output, stderr: bool)
    requires PumpInv(o, stderr) && PhaseInv(o) && o.phase.Done?
    ensures var p := PumpOf(o, stderr);
            Payload(stderr, Body(o)) <= p.total && (p.clean ==> Payload(stderr, Body(o)) == p.total)
  {
    var p, body := PumpOf(o, stderr), Body(o);
    var last := o.wire[|o.wire| - 1];
    LastOff(o.wire);
    PayloadOne(stderr, body, last);
    NothingBehind(Payload(stderr, body), Carried(stderr, last), Flatten(p.hold), p.unread);
  }

  lemma NothingBehind(a: Bytes, b: Bytes, c: Bytes, d: Bytes)
    requires b == []
    ensures a + b + [] + [] + c + d == a + (c + d)
  {
  }

  // -- at rest ----------------------------------------------------------------

  /** Steps of the pumps, the writer and the end of the run; the child's exit,
      an error, a stalled drain and a ping are not up to them. */
  predicate Own(e: Event) {
    !e.ChildExits? && !e.ReadError? && !e.DrainStalled? && !e.Pong? && (e.Read? ==> e.n == 1)
  }

  ghost predicate AtRest(o: Output) {
    forall e | Own(e) :: !Enabled(o, e)
  }

  lemma PumpAtRest(o: Output, s: bool)
    requires AtRest(o) && o.channel == []
    ensures PumpOf(o, s).over
  {
    assert !Enabled(o, Read(s, 1)) && !Enabled(o, Queue(s)) && !Enabled(o, EndOfFile(s));
  }

  /** The output side never stops short. While the child runs it rests only
      with both pumps at their end and everything on the wire; behind the
      child's exit only with the Exit frame out. */
  lemma RestsExactly(out: Bytes, err: Bytes, events: seq<Event>)
    requires Run(Start(out, err), events).Some? && AtRest(Run(Start(out, err), events).value)
    ensures var o := Run(Start(out, err), events).value;
            if o.phase.Running?
            then && o.out.over && o.err.over
                 && (!o.out.broken ==> Payload(false, o.wire) == out)
                 && (!o.err.broken ==> Payload(true, o.wire) == err)
            else o.phase.Done?
  {
    RunKeepsInv(Start(out, err), events);
    TotalsFixed(Start(out, err), events);
    var o := Run(Start(out, err), events).value;
    if !o.phase.Done? {
      PhaseAtRest(o);
      AllOnWire(o, false);
      AllOnWire(o, true);
    }
  }

  lemma WriterAtRest(o: Output)
    requires AtRest(o) && !o.phase.Done?
    ensures !o.phase.Flushed? && o.writing == [] && o.channel == []
  {
    assert !Enabled(o, Take) && !Enabled(o, Write);
    assert !Enabled(o, WriteExit(FC.ExitReport(0, None, None, false)));
  }

  lemma ClosingMoves(o: Output)
    requires o.phase.Closing? && o.writing == [] && o.channel == [] && (o.phase.drained ==> o.out.over && o.err.over)
    ensures exists e :: Own(e) && Enabled(o, e)
  {
    var e := if !o.out.over then PumpGone(false)
             else if !o.err.over then PumpGone(true)
             else if o.router then RouterGone
             else WriterEnds;
    assert Own(e) && Enabled(o, e);
  }

  lemma PhaseAtRest(o: Output)
    requires AtRest(o) && !o.phase.Done? && (o.phase.Closing? && o.phase.drained ==> o.out.over && o.err.over)
    ensures o.phase.Running? && o.writing == [] && o.channel == [] && o.out.over && o.err.over
  {
    WriterAtRest(o);
    if o.phase.Closing? {
      ClosingMoves(o);
    } else {
      PumpAtRest(o, false);
      PumpAtRest(o, true);
      assert !Enabled(o, DrainDone);
    }
  }

  lemma AllOnWire(o: Output, s: bool)
    requires PumpInv(o, s) && o.channel == [] && o.writing == [] && o.phase.Running? && PumpOf(o, s).over
    ensures !PumpOf(o, s).broken ==> Payload(s, o.wire) == PumpOf(o, s).total
  {
    NothingBehind(Payload(s, o.wire), [], [], []);
  }

  // -- the task loops ---------------------------------------------------------

  /** The output side moved by one event, or not at all. */
  ghost predicate Follows(o: Output, n: Output, did: Option<Event>) {
    match did
    case None => n == o
    case Some(e) => Enabled(o, e) && n == Next(o, e)
  }

  /** The state the pumps and the writer share. Each method is one turn of one
      task's loop and does nothing only when the task has to wait. */
  class Sides {
    var out: Pump
    var err: Pump
    var channel: seq<FC.EventFrame>
    var writing: seq<FC.EventFrame>
    var wire: seq<FC.EventFrame>
    var router: bool
    var phase: Phase

    function View(): Output
      reads this
    {
      Output(out, err, channel, writing, wire, router, phase)
    }

    /** A pump: a chunk in hand goes to the channel, waiting for room; without
        one the pipe is read, which ends the pump at end of file or on an
        error. `got` is what the read returns, None for an error. */
    method PumpTurn(stderr: bool, got: Option<nat>) returns (ghost did: Option<Event>)
      requires !PumpOf(View(), stderr).over
      requires got.Some? ==> got.value <= Min(READ_MAX, |PumpOf(View(), stderr).unread|)
      requires got == Some(0) ==> PumpOf(View(), stderr).unread == []
      modifies this`out, this`err, this`channel
      ensures Follows(old(View()), View(), did)
      ensures did.None? ==> PumpOf(View(), stderr).hold != [] && |channel| >= CHANNEL
      ensures did.Some? ==>
        var n := if got.Some? then got.value else 0;
        did.value in [Read(stderr, n), Queue(stderr), EndOfFile(stderr), ReadError(stderr)]
    {
      var p := if stderr then err else out;
      did := None;
      if p.hold != [] {
        if |channel| >= CHANNEL {
          return;
        }
        channel := channel + [Framed(stderr, p.hold[0])];
        p := p.(hold := p.hold[1..]);
        did := Some(Queue(stderr));
      } else if got.None? {
        p := p.(over := true, broken := true);
        did := Some(ReadError(stderr));
      } else if got.value == 0 {
        p := p.(over := true, clean := true);
        did := Some(EndOfFile(stderr));
      } else {
        p := p.(hold := [p.unread[..got.value]], unread := p.unread[got.value..]);
        did := Some(Read(stderr, got.value));
      }
      if stderr { err := p; } else { out := p; }
    }

    /** The single writer: a frame in hand is written out before the next one
        is taken from the channel. */
    method WriterTurn() returns (ghost did: Option<Event>)
      requires |writing| <= 1 && (phase.Running? || phase.Draining? || phase.Closing?)
      modifies this`channel, this`writing, this`wire
      ensures Follows(old(View()), View(), did)
      ensures did == if old(writing) != [] then Some(Write) else if old(channel) != [] then Some(Take) else None
    {
      did := None;
      if writing != [] {
        wire := wire + [writing[0]];
        writing := writing[1..];
        did := Some(Write);
      } else if channel != [] {
        writing := [channel[0]];
        channel := channel[1..];
        did := Some(Take);
      }
    }
  }

  // -- the drain's clock ------------------------------------------------------

  datatype DrainTick = OutEnds | ErrEnds | Progress(now: nat) | WriterLost | Wake(now: nat)

  /** Every progress tick among the first `n` that lies at or before `t` lies
      a whole grace before it. */
  ghost predicate StalledAt(script: seq<DrainTick>, n: nat, t: nat) {
    forall k | 0 <= k < n && k < |script| && script[k].Progress? :: script[k].now + DRAIN_GRACE <= t
  }

  ghost predicate Clocked(started: nat, script: seq<DrainTick>) {
    forall i, j | 0 <= i <= j < |script| && script[i].Progress? && script[j].Progress? ::
      started <= script[i].now <= script[j].now
  }

  /** The clock cannot hold the grace behind the start, or behind one of the
      first `n` progress ticks. */
  ghost predicate ClockEnds(started: nat, script: seq<DrainTick>, n: nat, horizon: nat) {
    || started + DRAIN_GRACE > horizon
    || exists k | 0 <= k < n && k < |script| && script[k].Progress? :: script[k].now + DRAIN_GRACE > horizon
  }

  /** The deadline in force behind the first `n` ticks: a grace behind the start
      or the last progress among them. */
  function Deadline(started: nat, script: seq<DrainTick>, n: nat): nat
    requires n <= |script|
  {
    if n == 0 then started + DRAIN_GRACE
    else if script[n - 1].Progress? then script[n - 1].now + DRAIN_GRACE
    else Deadline(started, script, n - 1)
  }

  /** It is past exactly when nothing was flushed for a whole grace. */
  lemma {:induction false} DeadlineMeans(started: nat, script: seq<DrainTick>, n: nat, t: nat)
    requires Clocked(started, script) && n <= |script|
    ensures t >= Deadline(started, script, n) <==> started + DRAIN_GRACE <= t && StalledAt(script, n, t)
  {
    if n > 0 {
      DeadlineMeans(started, script, n - 1, t);
      if script[n - 1].Progress? {
        assert forall k | 0 <= k < n && script[k].Progress? :: script[k].now <= script[n - 1].now;
      }
    }
  }

  /** Tick `k` ends the drain without both pumps: the writer is gone, the clock
      cannot hold another grace, or the deadline in force has passed. */
  predicate GivesUp(started: nat, script: seq<DrainTick>, k: nat, horizon: nat)
    requires k < |script|
  {
    match script[k]
    case WriterLost => true
    case Progress(now) => now + DRAIN_GRACE > horizon
    case Wake(now) => now >= Deadline(started, script, k)
    case _ => false
  }

  predicate BothEnded(script: seq<DrainTick>, n: nat)
    requires n <= |script|
  {
    OutEnds in script[..n] && ErrEnds in script[..n]
  }

  /** The drain stops neither at its start nor at any of the first `n` ticks. */
  ghost predicate GoesOn(started: nat, script: seq<DrainTick>, n: nat, horizon: nat)
    requires n <= |script|
  {
    && started + DRAIN_GRACE <= horizon
    && (forall k | 0 <= k < n :: !BothEnded(script, k) && !GivesUp(started, script, k, horizon))
  }

  lemma BothStayEnded(script: seq<DrainTick>, m: nat, n: nat)
    requires m <= n <= |script| && BothEnded(script, m)
    ensures BothEnded(script, n)
  {
    assert script[..m] == script[..n][..m];
  }

  /** drain_pumps, on a clock that ends at `horizon`: both pumps, or no
      progress for a whole grace, or the writer gone, whatever comes first. It
      reports true exactly when both pumps ended; it gives up at the very first
      tick that says so, and goes on, None, exactly when no tick does. */
  method DrainPumps(started: nat, script: seq<DrainTick>, horizon: nat) returns (finished: Option<bool>, used: nat)
    ensures used <= |script|
    ensures finished == Some(true) <==> GoesOn(started, script, used, horizon) && BothEnded(script, used)
    ensures finished == Some(false) <==>
      || (used == 0 && started + DRAIN_GRACE > horizon)
      || (used > 0 && GoesOn(started, script, used - 1, horizon) && !BothEnded(script, used - 1)
          && GivesUp(started, script, used - 1, horizon))
    ensures finished == None <==> GoesOn(started, script, |script|, horizon) && !BothEnded(script, |script|)
    ensures finished == None ==> used == |script|
  {
    var outDone, errDone := false, false;
    used := 0;
    if started + DRAIN_GRACE > horizon {
      return Some(false), used;
    }
    var stopAt := started + DRAIN_GRACE;
    while true
      invariant used <= |script|
      invariant outDone <==> OutEnds in script[..used]
      invariant errDone <==> ErrEnds in script[..used]
      invariant stopAt == Deadline(started, script, used) && GoesOn(started, script, used, horizon)
      decreases |script| - used
    {
      if outDone && errDone {
        forall n | used <= n <= |script|
          ensures BothEnded(script, n)
        {
          BothStayEnded(script, used, n);
        }
        return Some(true), used;
      }
      if used == |script| {
        return None, used;
      }
      var tick := script[used];
      assert script[..used + 1] == script[..used] + [tick];
      assert !BothEnded(script, used);
      used := used + 1;
      match tick {
        case OutEnds => outDone := true;
        case ErrEnds => errDone := true;
        case Progress(now) =>
          if now + DRAIN_GRACE > horizon {
            return Some(false), used;
          }
          stopAt := now + DRAIN_GRACE;
        case WriterLost => return Some(false), used;
        case Wake(now) =>
          if now >= stopAt {
            return Some(false), used;
          }
      }
    }
  }

  /** The drain gives up only when the writer is gone, the clock ends, or the
      last frame was flushed a whole grace ago. */
  lemma GivesUpMeans(started: nat, script: seq<DrainTick>, k: nat, horizon: nat)
    requires Clocked(started, script) && k < |script| && GoesOn(started, script, k, horizon)
    ensures GivesUp(started, script, k, horizon) <==>
      || script[k].WriterLost?
      || (script[k].Progress? && ClockEnds(started, script, k + 1, horizon))
      || (script[k].Wake? && started + DRAIN_GRACE <= script[k].now && StalledAt(script, k, script[k].now))
  {
    if script[k].Wake? {
      DeadlineMeans(started, script, k, script[k].now);
    }
    forall j | 0 <= j < k
      ensures script[j].Progress? ==> script[j].now + DRAIN_GRACE <= horizon
    {
      assert !GivesUp(started, script, j, horizon);
    }
  }
}
