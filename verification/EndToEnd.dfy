/** Output across both machines: what serve's output side writes, framed, split
    into SSH chunks in any way, taken apart by the daemon, relayed to the
    client's connection and read there. */
module EndToEnd {
  import opened Prelude
  import FC = FrameCodec
  import X = ExecChannel
  import O = OutputDrain
  import R = ClientRelay
  import L = ClientLoop

  /** The bytes of one stream among forwarded output events. */
  function Received(stderr: bool, out: seq<X.OutputEvent>): Bytes {
    if out == [] then []
    else (if out[0].Err? == stderr then out[0].data else []) + Received(stderr, out[1..])
  }

  lemma {:induction false} ReceivedIsPayload(stderr: bool, frames: seq<FC.EventFrame>)
    ensures Received(stderr, X.Outputs(frames)) == O.Payload(stderr, frames)
  {
    if frames != [] {
      ReceivedIsPayload(stderr, frames[1..]);
      var rest := X.Outputs(frames[1..]);
      match frames[0] {
        case Stdout(d) => assert ([X.Out(d)] + rest)[1..] == rest;
        case Stderr(d) => assert ([X.Err(d)] + rest)[1..] == rest;
        case _ =>
      }
    }
  }

  /** Control payloads stay within the frame limit; stream payloads always do. */
  ghost predicate ControlFits(d: FC.Dialect<FC.EventFrame>, frames: seq<FC.EventFrame>) {
    forall k | 0 <= k < |frames| && (frames[k].Exit? || frames[k].Pong?) :: FC.Fits(d, frames[k])
  }

  /** The daemon's wait on the bytes of a finished serve run reports serve's
      own exit report, and for each stream it forwards a prefix of what the
      child wrote; all of it when the drain saw both pumps finish and reading
      the pipe did not fail. The chunks are those of the encoded wire, which
      always fits (WireFits). */
  lemma OutputReachesTheDaemon(
      exit: FC.Json<FC.ExitReport>, pong: FC.Json<nat>, out: Bytes, err: Bytes, events: seq<O.Event>, o: O.Output,
      chunks: seq<Bytes>, status: Option<nat>, r: X.Outcome, forwarded: seq<X.OutputEvent>)
    requires FC.Lawful(exit) && FC.Lawful(pong)
    requires O.Run(O.Start(out, err), events) == Some(o) && o.phase.Done?
    requires ControlFits(FC.EventDialect(exit, pong), o.wire)
    requires FC.AllFit(FC.EventDialect(exit, pong), o.wire)
             ==> Flatten(chunks) == FC.EncodeAll(FC.EventDialect(exit, pong), o.wire)
    requires X.Ends(FC.EventDialect(exit, pong), chunks, status, r, forwarded)
    ensures && o.wire != [] && o.wire[|o.wire| - 1].Exit?
            && r == X.OutcomeOf(o.wire[|o.wire| - 1].report)
            && Received(false, forwarded) <= out && Received(true, forwarded) <= err
            && (o.phase.drained && !o.out.broken ==> Received(false, forwarded) == out)
            && (o.phase.drained && !o.err.broken ==> Received(true, forwarded) == err)
  {
    O.FinishedWire(out, err, events);
    WireFits(exit, pong, o.wire);
    FC.EventDialectInverts(exit, pong);
    WaitOnWire(FC.EventDialect(exit, pong), o.wire, chunks, status, r, forwarded);
  }

  /** What the client shows and returns, when serve's run has finished, the
      engine has ended by itself, the daemon's Exit frame has been written and
      no other branch of the client's loop was taken strictly inside a frame:
      serve's report without its error, and for each stream a prefix of what
      the child wrote; all of it when the drain saw both pumps finish and
      reading the pipe did not fail. */
  lemma CommandReachesTheClient(
      exit: FC.Json<FC.ExitReport>, pong: FC.Json<nat>, out: Bytes, err: Bytes, events: seq<O.Event>, o: O.Output,
      chunks: seq<Bytes>, status: Option<nat>, w: X.Outcome, forwarded: seq<X.OutputEvent>,
      message: string, relayed: seq<R.Event>, r: R.Relay, script: seq<L.Tick>, c: L.Client)
    requires FC.Lawful(exit) && FC.Lawful(pong)
    requires O.Run(O.Start(out, err), events) == Some(o) && o.phase.Done?
    requires ControlFits(FC.EventDialect(exit, pong), o.wire)
    requires FC.AllFit(FC.EventDialect(exit, pong), o.wire)
             ==> Flatten(chunks) == FC.EncodeAll(FC.EventDialect(exit, pong), o.wire)
    requires X.Ends(FC.EventDialect(exit, pong), chunks, status, w, forwarded)
    requires R.Run(R.Start(forwarded), relayed, X.SentOn(w, message)) == Some(r)
    requires r.engine.Ended? && X.HasExit(r.pipe) && FC.AllFit(FC.EventDialect(exit, pong), r.pipe)
    requires var d := FC.EventDialect(exit, pong);
             var stream := L.Fresh(FC.EncodeAll(d, r.pipe));
             L.Undisturbed(d, stream, script) && L.Turns(d, stream, script) == c
    ensures L.Arrivals(script) > |FC.EncodeAll(FC.EventDialect(exit, pong), r.pipe)| ==> c.end.Reported? || c.end.Left?
    ensures c.end.Reported? ==>
            && o.wire != [] && o.wire[|o.wire| - 1].Exit?
            && c.end.report == o.wire[|o.wire| - 1].report.(error := None)
            && Received(false, c.shown) <= out && Received(true, c.shown) <= err
            && (o.phase.drained && !o.out.broken ==> Received(false, c.shown) == out)
            && (o.phase.drained && !o.err.broken ==> Received(true, c.shown) == err)
  {
    OutputReachesTheDaemon(exit, pong, out, err, events, o, chunks, status, w, forwarded);
    FC.EventDialectInverts(exit, pong);
    RelayDelivers(FC.EventDialect(exit, pong), forwarded, X.SentOn(w, message), relayed, r, script);
  }

  /** The client's end of a whole relay: all the engine forwarded, and the
      daemon's report. */
  lemma RelayDelivers(d: FC.Dialect<FC.EventFrame>, whole: seq<X.OutputEvent>, report: FC.ExitReport,
                      events: seq<R.Event>, r: R.Relay, script: seq<L.Tick>)
    requires FC.Inverts(d) && R.Run(R.Start(whole), events, report) == Some(r)
    requires r.engine.Ended? && X.HasExit(r.pipe) && FC.AllFit(d, r.pipe)
    requires L.Undisturbed(d, L.Fresh(FC.EncodeAll(d, r.pipe)), script)
    ensures var c := L.Turns(d, L.Fresh(FC.EncodeAll(d, r.pipe)), script);
            && (c.end.Reported? ==> c.end.report == report && c.shown == whole)
            && (L.Arrivals(script) > |FC.EncodeAll(d, r.pipe)| ==> c.end.Reported? || c.end.Left?)
  {
    R.OutputBeforeExit(whole, report, events);
    L.ClientSees(d, r.pipe, script);
  }

  /** An execution that fails on the way, its stream bad or without an Exit
      frame, ends for the client with the daemon's code 254 and its message, no
      cwd and no timeout, behind all the output that was forwarded. */
  lemma FailureReachesTheClient(d: FC.Dialect<FC.EventFrame>, chunks: seq<Bytes>, status: Option<nat>, w: X.Outcome,
                                forwarded: seq<X.OutputEvent>, message: string, events: seq<R.Event>, r: R.Relay,
                                script: seq<L.Tick>)
    requires FC.Inverts(d) && X.Ends(d, chunks, status, w, forwarded)
    requires !X.HasExit(FC.Decode(d, Flatten(chunks)).frames)
    requires R.Run(R.Start(forwarded), events, X.SentOn(w, message)) == Some(r)
    requires r.engine.Ended? && X.HasExit(r.pipe) && FC.AllFit(d, r.pipe)
    requires L.Undisturbed(d, L.Fresh(FC.EncodeAll(d, r.pipe)), script)
    ensures var c := L.Turns(d, L.Fresh(FC.EncodeAll(d, r.pipe)), script);
            c.end.Reported? ==> c.end.report == FC.ExitReport(254, None, Some(message), false) && c.shown == forwarded
  {
    if FC.Decode(d, Flatten(chunks)).bad {
      X.BadWithoutExit(d, chunks, status, w, forwarded);
    } else {
      X.CleanStreamOutcome(d, chunks, status, w, forwarded);
    }
    RelayDelivers(d, forwarded, X.SentOn(w, message), events, r, script);
  }

  /** The daemon's wait on a wire of frames closed by one Exit frame. */
  lemma WaitOnWire(d: FC.Dialect<FC.EventFrame>, wire: seq<FC.EventFrame>,
                   chunks: seq<Bytes>, status: Option<nat>, r: X.Outcome, forwarded: seq<X.OutputEvent>)
    requires FC.Inverts(d)
    requires wire != [] && wire[|wire| - 1].Exit? && O.NoExit(wire[..|wire| - 1])
    requires FC.AllFit(d, wire) && Flatten(chunks) == FC.EncodeAll(d, wire)
    requires X.Ends(d, chunks, status, r, forwarded)
    ensures r == X.OutcomeOf(wire[|wire| - 1].report)
    ensures Received(false, forwarded) == O.Payload(false, wire[..|wire| - 1])
    ensures Received(true, forwarded) == O.Payload(true, wire[..|wire| - 1])
  {
    var body, report := wire[..|wire| - 1], wire[|wire| - 1].report;
    LastOff(wire);
    X.ServeReportArrives(d, body, report, chunks, status, r, forwarded);
    ReceivedIsPayload(false, body);
    ReceivedIsPayload(true, body);
  }

  lemma WireFits(exit: FC.Json<FC.ExitReport>, pong: FC.Json<nat>, wire: seq<FC.EventFrame>)
    requires wire != [] && wire[|wire| - 1].Exit? && O.Small(wire[..|wire| - 1])
    requires ControlFits(FC.EventDialect(exit, pong), wire)
    ensures FC.AllFit(FC.EventDialect(exit, pong), wire)
  {
    var d := FC.EventDialect(exit, pong);
    forall k | 0 <= k < |wire| ensures FC.Fits(d, wire[k]) {
      if wire[k].Stdout? || wire[k].Stderr? {
        assert wire[..|wire| - 1][k] == wire[k];
        assert d.payload(wire[k]) == wire[k].data;
      }
    }
  }
}
