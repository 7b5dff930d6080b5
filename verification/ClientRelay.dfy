/** From the daemon's wait to the client's connection: the bridge behind the
    engine, the single writer, and the Exit frame. */
module ClientRelay {
  import opened Prelude
  import opened FrameCodec
  import opened ExecChannel

  const EVENTS: nat := 256            // engine to bridge
  const CHANNEL: nat := 256           // to the writer

  /** The engine runs, has ended, or was dropped by the watchdog or a fatal
      client frame. */
  datatype Engine = Running | Ended | Dropped

  datatype Relay = Relay(
    todo: seq<OutputEvent>,           // output the engine has not forwarded
    events: seq<OutputEvent>,
    engine: Engine,
    bridge: seq<EventFrame>,          // frame the bridge holds
    bridgeOver: bool,
    out: seq<EventFrame>,
    writing: seq<EventFrame>,
    pipe: seq<EventFrame>,            // written to the client
    writerGone: bool,
    exited: bool)                     // the Exit frame was queued

  datatype Event =
    | Forward | Discard | EngineEnds | EngineDropped
    | BridgeTake | BridgePut | BridgeFails | BridgeEnds
    | Ping(pid: nat) | QueueExit
    | WriterTake | WriterWrite | WriterFails

  function Start(whole: seq<OutputEvent>): Relay {
    Relay(whole, [], Running, [], false, [], [], [], false, false)
  }

  function Framed(e: OutputEvent): EventFrame {
    match e case Out(d) => Stdout(d) case Err(d) => Stderr(d)
  }

  predicate Enabled(r: Relay, e: Event) {
    match e
    case Forward => r.engine.Running? && r.todo != [] && |r.events| < EVENTS && !r.bridgeOver
    case Discard => r.engine.Running? && r.todo != [] && r.bridgeOver
    case EngineEnds => r.engine.Running? && r.todo == []
    case EngineDropped => r.engine.Running?
    case BridgeTake => !r.bridgeOver && r.bridge == [] && r.events != []
    case BridgePut => !r.bridgeOver && r.bridge != [] && |r.out| < CHANNEL && !r.writerGone
    case BridgeFails => !r.bridgeOver && r.bridge != [] && r.writerGone
    case BridgeEnds => !r.bridgeOver && r.bridge == [] && r.events == [] && !r.engine.Running?
    case Ping(_) => r.engine.Running? && |r.out| < CHANNEL && !r.writerGone
    case QueueExit => !r.engine.Running? && r.bridgeOver && !r.exited && |r.out| < CHANNEL && !r.writerGone
    case WriterTake => !r.writerGone && r.writing == [] && r.out != []
    case WriterWrite => !r.writerGone && r.writing != []
    case WriterFails => !r.writerGone && r.writing != []
  }

  function Next(r: Relay, e: Event, report: ExitReport): Relay
    requires Enabled(r, e)
  {
    match e
    case Forward => r.(todo := r.todo[1..], events := r.events + [r.todo[0]])
    case Discard => r.(todo := r.todo[1..])
    case EngineEnds => r.(engine := Ended)
    case EngineDropped => r.(engine := Dropped)
    case BridgeTake => r.(events := r.events[1..], bridge := [Framed(r.events[0])])
    case BridgePut => r.(bridge := [], out := r.out + [r.bridge[0]])
    case BridgeFails => r.(bridgeOver := true)
    case BridgeEnds => r.(bridgeOver := true)
    case Ping(pid) => r.(out := r.out + [Pong(pid)])
    case QueueExit => r.(out := r.out + [Exit(report)], exited := true)
    case WriterTake => r.(out := r.out[1..], writing := [r.out[0]])
    case WriterWrite => r.(writing := [], pipe := r.pipe + [r.writing[0]])
    case WriterFails => r.(writerGone := true)
  }

  function Run(r: Relay, events: seq<Event>, report: ExitReport): Option<Relay>
    decreases |events|
  {
    if events == [] then Some(r)
    else if Enabled(r, events[0]) then Run(Next(r, events[0], report), events[1..], report)
    else None
  }

  // -- the invariant ----------------------------------------------------------

  /** Everything queued for the client, what it has got first. */
  function Queue(r: Relay): seq<EventFrame> {
    r.pipe + r.writing + r.out
  }

  /** The output on its way, in order, and what is still to come. */
  ghost predicate FlowInv(r: Relay, whole: seq<OutputEvent>) {
    && |r.bridge| <= 1 && |r.writing| <= 1 && !HasExit(r.bridge)
    && (!r.writerGone ==> Outputs(Queue(r)) + Outputs(r.bridge) + r.events + r.todo == whole)
    && (r.bridgeOver && !r.writerGone ==> r.bridge == [] && r.events == [] && !r.engine.Running?)
    && (r.engine.Ended? ==> r.todo == [])
  }

  /** The Exit frame is queued last, once, and behind everything else. */
  ghost predicate ExitInv(r: Relay, report: ExitReport) {
    var q := Queue(r);
    if r.exited
    then q != [] && q[|q| - 1] == Exit(report) && !HasExit(q[..|q| - 1]) && r.bridgeOver && !r.engine.Running?
    else !HasExit(q)
  }

  lemma OutputsOne(q: seq<EventFrame>, f: EventFrame)
    ensures Outputs(q + [f]) == Outputs(q) + Outputs([f])
    ensures f.Exit? || f.Pong? ==> Outputs([f]) == []
  {
    OutputsConcat(q, [f]);
    assert [f][1..] == [];
  }

  lemma FramedOutputs(e: OutputEvent)
    ensures Outputs([Framed(e)]) == [e] && !Framed(e).Exit?
  {
    assert [Framed(e)][1..] == [];
  }

  lemma FrontOff<T>(a: seq<T>)
    requires a != []
    ensures a == [a[0]] + a[1..]
  {
  }

  /** Events of the engine and the bridge. */
  lemma FlowFilled(r: Relay, e: Event, report: ExitReport, whole: seq<OutputEvent>)
    requires FlowInv(r, whole) && Enabled(r, e) && !r.writerGone
    requires e.Forward? || e.BridgeTake? || e.BridgePut?
    ensures FlowInv(Next(r, e, report), whole)
  {
    var q, b := Outputs(Queue(r)), Outputs(r.bridge);
    match e {
      case Forward =>
        FrontOff(r.todo);
        Assoc(q + b + r.events, [r.todo[0]], r.todo[1..]);
        Assoc(q + b, r.events, [r.todo[0]]);
      case BridgeTake =>
        FramedOutputs(r.events[0]);
        FrontOff(r.events);
        assert q + b == q;
        Assoc(q, [r.events[0]], r.events[1..]);
      case BridgePut =>
        assert r.bridge == [r.bridge[0]];
        OutputsOne(Queue(r), r.bridge[0]);
        Assoc(r.pipe + r.writing, r.out, r.bridge);
        assert q + b + [] == q + b;
    }
  }

  /** Events of the writer only move the queue along. */
  lemma QueueMoves(r: Relay, e: Event, report: ExitReport)
    requires |r.writing| <= 1 && Enabled(r, e) && (e.WriterTake? || e.WriterWrite?)
    ensures Queue(Next(r, e, report)) == Queue(r)
  {
    if e.WriterTake? {
      FrontOff(r.out);
      assert r.pipe + [] == r.pipe;
      Assoc(r.pipe, [r.out[0]], r.out[1..]);
    } else {
      assert r.writing == [r.writing[0]];
      assert r.pipe + r.writing + [] == r.pipe + r.writing;
    }
  }

  /** A frame of the daemon's own joins the queue. */
  lemma QueueGrows(r: Relay, e: Event, report: ExitReport)
    requires Enabled(r, e) && (e.Ping? || e.QueueExit?)
    ensures var f := if e.Ping? then Pong(e.pid) else Exit(report);
            Queue(Next(r, e, report)) == Queue(r) + [f] && Outputs(Queue(r) + [f]) == Outputs(Queue(r))
  {
    var f := if e.Ping? then Pong(e.pid) else Exit(report);
    Assoc(r.pipe + r.writing, r.out, [f]);
    OutputsOne(Queue(r), f);
    assert Outputs(Queue(r)) + [] == Outputs(Queue(r));
  }

  lemma FlowKept(r: Relay, e: Event, report: ExitReport, whole: seq<OutputEvent>)
    requires FlowInv(r, whole) && Enabled(r, e)
    ensures FlowInv(Next(r, e, report), whole)
  {
    if e.BridgeTake? {
      FramedOutputs(r.events[0]);
    }
    if !r.writerGone {
      if e.Forward? || e.BridgeTake? || e.BridgePut? {
        FlowFilled(r, e, report, whole);
      } else if e.WriterTake? || e.WriterWrite? {
        QueueMoves(r, e, report);
      } else if e.Ping? || e.QueueExit? {
        QueueGrows(r, e, report);
      }
    }
  }

  lemma ExitKept(r: Relay, e: Event, report: ExitReport)
    requires |r.bridge| <= 1 && |r.writing| <= 1 && !HasExit(r.bridge)
    requires ExitInv(r, report) && Enabled(r, e)
    ensures ExitInv(Next(r, e, report), report)
  {
    var n := Next(r, e, report);
    if e.WriterTake? || e.WriterWrite? {
      QueueMoves(r, e, report);
    } else if e.Ping? || e.QueueExit? {
      QueueGrows(r, e, report);
      assert Queue(n)[..|Queue(r)|] == Queue(r);
    } else if e.BridgePut? {
      Assoc(r.pipe + r.writing, r.out, [r.bridge[0]]);
    }
  }

  /** The client has got a front part of the output, and no Exit frame from a
      writer that failed. */
  ghost predicate GotInv(r: Relay, whole: seq<OutputEvent>) {
    Outputs(r.pipe) <= whole && (r.writerGone ==> !HasExit(r.pipe))
  }

  lemma GotKept(r: Relay, e: Event, report: ExitReport, whole: seq<OutputEvent>)
    requires FlowInv(r, whole) && ExitInv(r, report) && GotInv(r, whole) && Enabled(r, e)
    ensures GotInv(Next(r, e, report), whole)
  {
    if e.WriterWrite? {
      var pipe := r.pipe + [r.writing[0]];
      assert Queue(r) == pipe + r.out;
      OutputsConcat(pipe, r.out);
      assert Outputs(pipe) <= Outputs(Queue(r));
    } else if e.WriterFails? && HasExit(r.pipe) {
      ExitIsLast(r, report);
    }
  }

  lemma {:induction false} RunKeepsInv(r: Relay, events: seq<Event>, report: ExitReport, whole: seq<OutputEvent>)
    requires FlowInv(r, whole) && ExitInv(r, report) && GotInv(r, whole)
    ensures var n := Run(r, events, report);
            n.Some? ==> FlowInv(n.value, whole) && ExitInv(n.value, report) && GotInv(n.value, whole)
    decreases |events|
  {
    if events != [] && Enabled(r, events[0]) {
      FlowKept(r, events[0], report, whole);
      ExitKept(r, events[0], report);
      GotKept(r, events[0], report, whole);
      RunKeepsInv(Next(r, events[0], report), events[1..], report, whole);
    }
  }

  /** In every run, whatever the client has got is a front part of the engine's
      output with nothing reordered; and once the Exit frame is with it, it has
      got all the engine forwarded before: everything, when the engine ended
      by itself. The Exit frame comes once, and last. */
  lemma OutputBeforeExit(whole: seq<OutputEvent>, report: ExitReport, events: seq<Event>)
    requires Run(Start(whole), events, report).Some?
    ensures var r := Run(Start(whole), events, report).value;
            && Outputs(r.pipe) <= whole
            && (HasExit(r.pipe) ==>
                  r.pipe[|r.pipe| - 1] == Exit(report) && !HasExit(r.pipe[..|r.pipe| - 1])
                  && Outputs(r.pipe) + r.todo == whole && (r.engine.Ended? ==> Outputs(r.pipe) == whole))
  {
    var s := Start(whole);
    assert Queue(s) == [];
    assert [] + [] + [] + whole == whole;
    RunKeepsInv(s, events, report, whole);
    var r := Run(s, events, report).value;
    if HasExit(r.pipe) {
      ExitIsLast(r, report);
      AllThere(r, report, whole);
    }
  }

  /** Steps of the daemon's own: no drop of the engine, no failed write, no
      reply to a ping. */
  predicate Own(e: Event) {
    !e.EngineDropped? && !e.WriterFails? && !e.Ping?
  }

  /** The relay never stops short: a run in which no step of its own is left has
      given the client the Exit frame, or lost the writer. */
  lemma RestsWithExit(whole: seq<OutputEvent>, report: ExitReport, events: seq<Event>)
    requires Run(Start(whole), events, report).Some?
    requires forall e | Own(e) :: !Enabled(Run(Start(whole), events, report).value, e)
    ensures var r := Run(Start(whole), events, report).value; HasExit(r.pipe) || r.writerGone
  {
    var s := Start(whole);
    assert Queue(s) == [];
    assert [] + [] + [] + whole == whole;
    RunKeepsInv(s, events, report, whole);
    var r := Run(s, events, report).value;
    if !r.writerGone {
      AtRest(r);
      assert Queue(r) == r.pipe;
    }
  }

  lemma AtRest(r: Relay)
    requires !r.writerGone && forall e | Own(e) :: !Enabled(r, e)
    ensures r.out == [] && r.writing == [] && r.exited
  {
    assert !Enabled(r, WriterTake) && !Enabled(r, WriterWrite);
    assert !Enabled(r, BridgeTake) && !Enabled(r, BridgePut) && !Enabled(r, BridgeEnds);
    assert !Enabled(r, Forward) && !Enabled(r, Discard) && !Enabled(r, EngineEnds) && !Enabled(r, QueueExit);
  }

  lemma ExitIsLast(r: Relay, report: ExitReport)
    requires ExitInv(r, report) && HasExit(r.pipe)
    ensures r.exited && r.writing == [] && r.out == [] && r.pipe == Queue(r)
    ensures r.pipe[|r.pipe| - 1] == Exit(report) && !HasExit(r.pipe[..|r.pipe| - 1])
  {
    var k :| 0 <= k < |r.pipe| && r.pipe[k].Exit?;
    assert Queue(r)[k] == r.pipe[k];
    assert |Queue(r)| == |r.pipe| + |r.writing| + |r.out|;
    forall m | 0 <= m < |Queue(r)| - 1 ensures !Queue(r)[m].Exit? {
      assert Queue(r)[..|Queue(r)| - 1][m] == Queue(r)[m];
    }
    assert r.pipe + [] + [] == r.pipe;
  }

  lemma AllThere(r: Relay, report: ExitReport, whole: seq<OutputEvent>)
    requires FlowInv(r, whole) && ExitInv(r, report) && GotInv(r, whole) && HasExit(r.pipe)
    ensures Outputs(r.pipe) + r.todo == whole && (r.engine.Ended? ==> Outputs(r.pipe) == whole)
  {
    ExitIsLast(r, report);
    assert Outputs(r.pipe) + [] + [] + r.todo == Outputs(r.pipe) + r.todo;
    assert Outputs(r.pipe) + [] == Outputs(r.pipe);
  }
}
