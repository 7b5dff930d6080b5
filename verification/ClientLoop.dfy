/** The client's select loop over the daemon's frames, stdin and signals. Each
    turn makes its frame read anew: when another branch is taken while a read
    is under way, the bytes it had taken are gone. */
module ClientLoop {
  import opened Prelude
  import opened FrameCodec
  import opened ExecChannel
  import opened StreamReader

  // -- what the frames say ----------------------------------------------------

  /** What a client makes of its frames: the output up to the first Exit frame
      and that frame's report, or no report. */
  datatype Seen = Seen(report: Option<ExitReport>, shown: seq<OutputEvent>)

  function SeenIn(frames: seq<EventFrame>): Seen {
    var k := ExitIndex(frames);
    if k < |frames| then Seen(Some(frames[k].report), Outputs(frames[..k])) else Seen(None, Outputs(frames))
  }

  // -- one read ---------------------------------------------------------------

  /** A whole header that ends the read at once. */
  predicate BadHeader<T>(d: Dialect<T>, part: Bytes)
    requires |part| >= 5
  {
    !d.known(part[0]) || LeValue(part[1..5]) > MAX_PAYLOAD
  }

  /** The read has what it wants. */
  predicate Done<T>(d: Dialect<T>, part: Bytes) {
    |part| >= 5 && (BadHeader(d, part) || |part| >= FrameSize(part))
  }

  /** The read takes up to `n` bytes, and none behind its frame. */
  function Feed<T>(d: Dialect<T>, part: Bytes, rest: Bytes, n: nat): (r: (Bytes, Bytes))
    ensures r.0 + r.1 == part + rest && part <= r.0 && |r.1| <= |rest|
    ensures n > 0 && rest != [] && !Done(d, part) ==> |r.1| < |rest|
    decreases n
  {
    if n == 0 || rest == [] || Done(d, part) then (part, rest)
    else
      Assoc(part, [rest[0]], rest[1..]);
      assert [rest[0]] + rest[1..] == rest;
      Feed(d, part + [rest[0]], rest[1..], n - 1)
  }

  // -- the loop ---------------------------------------------------------------

  /** What a turn of the loop is: bytes for the pending read, none being the end
      of the stream; a branch of another arm, with whether that arm is off
      afterwards; or an end of the loop that is not the frames' doing (a second
      interrupt, a failed write to the daemon, a failed read). */
  datatype Tick = Arrived(n: nat) | StdinReady(ends: bool) | SignalReady(ends: bool) | Leave

  datatype End = Running | Reported(report: ExitReport) | StreamEnded | Broken | Left

  datatype Client = Client(
    part: Bytes,                      // taken by the pending read
    rest: Bytes,                      // still to come
    stdinOpen: bool,
    signalsOpen: bool,
    shown: seq<OutputEvent>,
    end: End)

  function Fresh(stream: Bytes): Client {
    Client([], stream, true, true, [], Running)
  }

  /** The frame arm, on what its read came to. */
  function Handle(c: Client, one: ReadResult<EventFrame>): Client {
    match one
    case Frame(Exit(report)) => c.(part := [], end := End.Reported(report))
    case Frame(Stdout(b)) => c.(part := [], shown := c.shown + [Out(b)])
    case Frame(Stderr(b)) => c.(part := [], shown := c.shown + [Err(b)])
    case Frame(Pong(_)) => c.(part := [])
    case CleanEof => c.(end := StreamEnded)
    case _ => c.(end := Broken)
  }

  function Turn(d: Dialect<EventFrame>, c: Client, tick: Tick): Client {
    if !c.end.Running? then c
    else match tick
      case Arrived(n) =>
        if n == 0 then c
        else if c.rest == [] then Handle(c, ReadOne(d, c.part))
        else
          var (part, rest) := Feed(d, c.part, c.rest, n);
          if Done(d, part) then Handle(c.(part := part, rest := rest), ReadOne(d, part))
          else c.(part := part, rest := rest)
      case StdinReady(ends) => if c.stdinOpen then c.(part := [], stdinOpen := !ends) else c
      case SignalReady(ends) => if c.signalsOpen then c.(part := [], signalsOpen := !ends) else c
      case Leave => c.(end := Left)
  }

  function Turns(d: Dialect<EventFrame>, c: Client, script: seq<Tick>): Client
    decreases |script|
  {
    if script == [] then c else Turns(d, Turn(d, c, script[0]), script[1..])
  }

  /** The loop itself, over any script. */
  method Run(d: Dialect<EventFrame>, stream: Bytes, script: seq<Tick>) returns (end: End, shown: seq<OutputEvent>)
    ensures var c := Turns(d, Fresh(stream), script); end == c.end && shown == c.shown
  {
    var part: Bytes, rest := [], stream;
    var stdinOpen, signalsOpen := true, true;
    shown, end := [], Running;
    var left := script;
    while left != [] && end.Running?
      invariant Turns(d, Fresh(stream), script)
             == Turns(d, Client(part, rest, stdinOpen, signalsOpen, shown, end), left)
      decreases |left|
    {
      var tick := left[0];
      left := left[1..];
      match tick {
        case Arrived(n) =>
          if n > 0 {
            var eof := rest == [];
            if !eof {
              var fed := Feed(d, part, rest, n);
              part, rest := fed.0, fed.1;
            }
            if eof || Done(d, part) {
              match ReadOne(d, part) {
                case Frame(f) =>
                  part := [];
                  match f {
                    case Exit(report) => end := End.Reported(report);
                    case Stdout(b) => shown := shown + [Out(b)];
                    case Stderr(b) => shown := shown + [Err(b)];
                    case Pong(_) =>
                  }
                case CleanEof => end := StreamEnded;
                case _ => end := Broken;
              }
            }
          }
        case StdinReady(ends) =>
          if stdinOpen {
            part, stdinOpen := [], !ends;
          }
        case SignalReady(ends) =>
          if signalsOpen {
            part, signalsOpen := [], !ends;
          }
        case Leave => end := Left;
      }
    }
    EndedStays(d, Client(part, rest, stdinOpen, signalsOpen, shown, end), left);
  }

  lemma {:induction false} EndedStays(d: Dialect<EventFrame>, c: Client, script: seq<Tick>)
    requires script == [] || !c.end.Running?
    ensures Turns(d, c, script) == c
    decreases |script|
  {
    if script != [] {
      EndedStays(d, c, script[1..]);
    }
  }

  // -- undisturbed runs -------------------------------------------------------

  /** Another arm's branch is taken. */
  predicate Disturbs(c: Client, tick: Tick) {
    c.end.Running? && ((tick.StdinReady? && c.stdinOpen) || (tick.SignalReady? && c.signalsOpen))
  }

  /** Other branches are taken only where `may` allows it, told by how many
      bytes the pending read has taken; between frames they always may. */
  ghost predicate Allowed(d: Dialect<EventFrame>, may: nat -> bool, c: Client, script: seq<Tick>)
    decreases |script|
  {
    script == []
    || ((Disturbs(c, script[0]) && c.part != [] ==> may(|c.part|))
        && Allowed(d, may, Turn(d, c, script[0]), script[1..]))
  }

  /** No other branch is taken strictly inside a frame. */
  ghost predicate Undisturbed(d: Dialect<EventFrame>, c: Client, script: seq<Tick>) {
    Allowed(d, k => false, c, script)
  }

  /** A read is under way: no whole header that ends it, no whole frame. */
  predicate Pending<T>(d: Dialect<T>, part: Bytes) {
    |part| < 5 || (!BadHeader(d, part) && |part| < FrameSize(part))
  }

  lemma {:induction false} FeedStops<T>(d: Dialect<T>, part: Bytes, rest: Bytes, n: nat)
    requires Pending(d, part)
    ensures var p := Feed(d, part, rest, n).0;
            Pending(d, p) || (Done(d, p) && |p| == if BadHeader(d, p) then 5 else FrameSize(p))
    decreases n
  {
    if n > 0 && rest != [] {
      var next := part + [rest[0]];
      if |part| >= 5 {
        assert next[1..5] == part[1..5];
      }
      if !Done(d, next) {
        FeedStops(d, next, rest[1..], n - 1);
      }
    }
  }

  /** What a finished read has taken says what the stream starts with. */
  lemma DoneReads<T>(d: Dialect<T>, p: Bytes, rest: Bytes)
    requires Done(d, p) && |p| == if BadHeader(d, p) then 5 else FrameSize(p)
    ensures ReadOne(d, p + rest) == ReadOne(d, p)
    ensures ReadOne(d, p).Frame? ==> FrameSize(p + rest) == |p| && (p + rest)[|p|..] == rest
  {
    var b := p + rest;
    assert b[1..5] == p[1..5] && b[0] == p[0];
    if !BadHeader(d, p) {
      assert b[5..|p|] == p[5..|p|];
    }
  }

  /** The frames the loop has handled, in front of those still in the stream. */
  ghost predicate Follows(d: Dialect<EventFrame>, all: Bytes, done: seq<EventFrame>, c: Client) {
    var r := ReadAll(d, all);
    var later := ReadAll(d, c.part + c.rest);
    && c.end.Running? && Pending(d, c.part) && !HasExit(done) && c.shown == Outputs(done)
    && r.frames == done + later.frames && r.end == later.end
  }

  /** What the end of a loop says about the stream; an end that is not the
      frames' doing, or none yet, shows a front part of the output. */
  ghost predicate Tells(d: Dialect<EventFrame>, all: Bytes, c: Client) {
    var r := ReadAll(d, all);
    match c.end
    case Reported(report) => SeenIn(r.frames) == Seen(Some(report), c.shown)
    case StreamEnded => SeenIn(r.frames) == Seen(None, c.shown) && r.end.CleanEof?
    case Broken => SeenIn(r.frames) == Seen(None, c.shown) && r.end.Protocol?
    case _ => c.shown <= SeenIn(r.frames).shown
  }

  lemma NoExitSeen(frames: seq<EventFrame>)
    requires !HasExit(frames)
    ensures SeenIn(frames) == Seen(None, Outputs(frames))
  {
  }

  lemma ExitSeen(done: seq<EventFrame>, report: ExitReport, later: seq<EventFrame>)
    requires !HasExit(done)
    ensures SeenIn(done + ([Exit(report)] + later)) == Seen(Some(report), Outputs(done))
  {
    var frames := [Exit(report)] + later;
    assert frames[0].Exit?;
    ExitBehindOutputs(done, frames);
    assert Outputs(done) + Outputs(frames[..0]) == Outputs(done);
  }

  lemma SeenBehind(done: seq<EventFrame>, later: seq<EventFrame>)
    requires !HasExit(done) && HasExit(later)
    ensures SeenIn(done + later).shown == Outputs(done) + Outputs(later[..ExitIndex(later)])
  {
    ExitBehindOutputs(done, later);
  }

  /** Output without an Exit frame in it is shown whatever follows. */
  lemma FrontSeen(done: seq<EventFrame>, later: seq<EventFrame>)
    requires !HasExit(done)
    ensures Outputs(done) <= SeenIn(done + later).shown
  {
    if HasExit(later) {
      SeenBehind(done, later);
    } else {
      NoExitSeen(done + later);
      OutputsConcat(done, later);
    }
  }

  lemma NextSeen(done: seq<EventFrame>, f: EventFrame, later: seq<EventFrame>)
    requires !HasExit(done) && !f.Exit?
    ensures done + ([f] + later) == done + [f] + later && !HasExit(done + [f])
    ensures Outputs(done + [f]) == if f.Stdout? then Outputs(done) + [Out(f.data)]
                                   else if f.Stderr? then Outputs(done) + [Err(f.data)] else Outputs(done)
  {
    Assoc(done, [f], later);
    OutputsConcat(done, [f]);
    assert [f][1..] == [];
    assert Outputs(done) + [] == Outputs(done);
  }

  /** The frame arm, on a read of the front of what is left. */
  lemma HandleTells(d: Dialect<EventFrame>, all: Bytes, done: seq<EventFrame>, c: Client, one: ReadResult<EventFrame>)
    returns (more: seq<EventFrame>)
    requires c.end.Running? && !HasExit(done) && c.shown == Outputs(done) && one == ReadOne(d, c.part + c.rest)
    requires ReadAll(d, all).frames == done + ReadAll(d, c.part + c.rest).frames
    requires ReadAll(d, all).end == ReadAll(d, c.part + c.rest).end
    requires one.Frame? ==> (c.part + c.rest)[FrameSize(c.part + c.rest)..] == c.rest
    ensures var n := Handle(c, one); if n.end.Running? then Follows(d, all, more, n) else Tells(d, all, n)
  {
    more := done;
    if !one.Frame? {
      assert done + [] == done;
      NoExitSeen(done);
    } else {
      assert [] + c.rest == c.rest;
      var later := ReadAll(d, c.rest).frames;
      if one.frame.Exit? {
        ExitSeen(done, one.frame.report, later);
      } else {
        NextSeen(done, one.frame, later);
        more := done + [one.frame];
      }
    }
  }

  lemma TurnTells(d: Dialect<EventFrame>, all: Bytes, done: seq<EventFrame>, c: Client, tick: Tick)
    returns (more: seq<EventFrame>)
    requires Follows(d, all, done, c) && (Disturbs(c, tick) ==> c.part == [])
    ensures var n := Turn(d, c, tick); if n.end.Running? then Follows(d, all, more, n) else Tells(d, all, n)
  {
    more := done;
    match tick {
      case Arrived(n) =>
        if n > 0 && c.rest == [] {
          assert c.part + c.rest == c.part;
          more := HandleTells(d, all, done, c, ReadOne(d, c.part));
        } else if n > 0 {
          var (part, rest) := Feed(d, c.part, c.rest, n);
          FeedStops(d, c.part, c.rest, n);
          if Done(d, part) {
            DoneReads(d, part, rest);
            more := HandleTells(d, all, done, c.(part := part, rest := rest), ReadOne(d, part));
          }
        }
      case Leave => FrontSeen(done, ReadAll(d, c.part + c.rest).frames);
      case _ =>
    }
  }

  lemma {:induction false} TurnsTell(
    d: Dialect<EventFrame>, all: Bytes, done: seq<EventFrame>, c: Client, script: seq<Tick>)
    requires Follows(d, all, done, c) && Undisturbed(d, c, script)
    ensures Tells(d, all, Turns(d, c, script))
    decreases |script|
  {
    if script == [] {
      FrontSeen(done, ReadAll(d, c.part + c.rest).frames);
    } else {
      var n := Turn(d, c, script[0]);
      var more := TurnTells(d, all, done, c, script[0]);
      if n.end.Running? {
        TurnsTell(d, all, more, n, script[1..]);
      } else {
        EndedStays(d, n, script[1..]);
      }
    }
  }

  /** A loop that is not disturbed inside a frame says of any stream, in any
      pieces, what its frames say. */
  lemma UndisturbedTells(d: Dialect<EventFrame>, all: Bytes, script: seq<Tick>)
    requires Undisturbed(d, Fresh(all), script)
    ensures Tells(d, all, Turns(d, Fresh(all), script))
  {
    assert [] + all == all;
    var frames := ReadAll(d, all).frames;
    assert [] + frames == frames;
    TurnsTell(d, all, [], Fresh(all), script);
  }

  // -- when no branch disturbs -------------------------------------------------

  /** With stdin and the signals at their end, nothing does. */
  lemma {:induction false} QuietIsUndisturbed(d: Dialect<EventFrame>, c: Client, script: seq<Tick>)
    requires !c.stdinOpen && !c.signalsOpen
    ensures Undisturbed(d, c, script)
    decreases |script|
  {
    if script != [] {
      QuietIsUndisturbed(d, Turn(d, c, script[0]), script[1..]);
    }
  }

  function Arrivals(script: seq<Tick>): nat {
    if script == [] then 0
    else (if script[0].Arrived? && script[0].n > 0 then 1 else 0) + Arrivals(script[1..])
  }

  /** An arm goes off at the first end of its source that the loop sees, and
      only then. */
  lemma {:induction false} ArmsGoOff(d: Dialect<EventFrame>, c: Client, script: seq<Tick>)
    requires Turns(d, c, script).end.Running?
    ensures Turns(d, c, script).stdinOpen <==> c.stdinOpen && StdinReady(true) !in script
    ensures Turns(d, c, script).signalsOpen <==> c.signalsOpen && SignalReady(true) !in script
    decreases |script|
  {
    if script != [] {
      if !c.end.Running? {
        EndedStays(d, c, script);
      }
      ArmsGoOff(d, Turn(d, c, script[0]), script[1..]);
      assert script == [script[0]] + script[1..];
    }
  }

  /** Every arrival takes a byte from the stream or ends the loop, so enough of
      them do end it. */
  lemma {:induction false} ArrivalsEnd(d: Dialect<EventFrame>, c: Client, script: seq<Tick>)
    requires !Done(d, c.part) && Arrivals(script) > |c.rest|
    ensures !Turns(d, c, script).end.Running?
    decreases |script|
  {
    if !c.end.Running? {
      EndedStays(d, c, script);
    } else {
      var n := Turn(d, c, script[0]);
      if n.end.Running? {
        assert !Done(d, n.part) || c.rest == [];
        if c.rest == [] && script[0].Arrived? && script[0].n > 0 {
          EofEnds(d, c);
        }
        ArrivalsEnd(d, n, script[1..]);
      } else {
        EndedStays(d, n, script[1..]);
      }
    }
  }

  /** The end of the stream ends the loop. */
  lemma EofEnds(d: Dialect<EventFrame>, c: Client)
    requires !Done(d, c.part)
    ensures !ReadOne(d, c.part).Frame?
  {
  }

  lemma {:induction false} AllowedBehind(
    d: Dialect<EventFrame>, may: nat -> bool, c: Client, a: seq<Tick>, b: seq<Tick>)
    requires Allowed(d, may, c, a) && Allowed(d, may, Turns(d, c, a), b)
    ensures Allowed(d, may, c, a + b)
    decreases |a|
  {
    if a == [] {
      assert a + b == b;
    } else {
      FrontOfConcat(a, b);
      AllowedBehind(d, may, Turn(d, c, a[0]), a[1..], b);
    }
  }

  /** So a loop that closed both arms undisturbed stays so. */
  lemma QuietTail(d: Dialect<EventFrame>, all: Bytes, a: seq<Tick>, b: seq<Tick>)
    requires Undisturbed(d, Fresh(all), a)
    requires !Turns(d, Fresh(all), a).stdinOpen && !Turns(d, Fresh(all), a).signalsOpen
    ensures Undisturbed(d, Fresh(all), a + b)
  {
    QuietIsUndisturbed(d, Turns(d, Fresh(all), a), b);
    AllowedBehind(d, k => false, Fresh(all), a, b);
  }

  // -- what a disturbed read loses --------------------------------------------

  /** Frames as the daemon sends them: one Exit frame, last. */
  ghost predicate Whole(d: Dialect<EventFrame>, frames: seq<EventFrame>) {
    AllFit(d, frames) && frames != [] && frames[|frames| - 1].Exit? && !HasExit(frames[..|frames| - 1])
  }

  /** The client has shown all output and taken the report; or, with its loop
      not ended by the frames, a front part of the output. */
  ghost predicate Right(frames: seq<EventFrame>, c: Client)
    requires frames != [] && frames[|frames| - 1].Exit?
  {
    match c.end
    case Reported(report) => report == frames[|frames| - 1].report && c.shown == Outputs(frames)
    case StreamEnded => false
    case Broken => false
    case _ => c.shown <= Outputs(frames)
  }

  lemma WholeSeen(d: Dialect<EventFrame>, frames: seq<EventFrame>)
    requires Inverts(d) && Whole(d, frames)
    ensures ReadAll(d, EncodeAll(d, frames)).frames == frames
    ensures SeenIn(frames) == Seen(Some(frames[|frames| - 1].report), Outputs(frames))
  {
    var b := EncodeAll(d, frames);
    RoundTrip(d, frames, []);
    assert b + [] == b && frames + [] == frames && Decode(d, []).frames == [];
    ReaderAgreesWithDecoder(d, b);
    var body, report := frames[..|frames| - 1], frames[|frames| - 1].report;
    LastOff(frames);
    ExitSeen(body, report, []);
    assert [Exit(report)] + [] == [Exit(report)];
    OutputsConcat(body, [Exit(report)]);
    assert [Exit(report)][1..] == [];
    assert Outputs(body) + [] == Outputs(body);
  }

  /** An undisturbed client gets what the daemon sent, in any pieces; with
      enough of them and no other end, all of it. */
  lemma ClientSees(d: Dialect<EventFrame>, frames: seq<EventFrame>, script: seq<Tick>)
    requires Inverts(d) && Whole(d, frames) && Undisturbed(d, Fresh(EncodeAll(d, frames)), script)
    ensures var c := Turns(d, Fresh(EncodeAll(d, frames)), script);
            Right(frames, c) && (Arrivals(script) > |EncodeAll(d, frames)| ==> c.end.Reported? || c.end.Left?)
  {
    WholeSeen(d, frames);
    UndisturbedTells(d, EncodeAll(d, frames), script);
    if Arrivals(script) > |EncodeAll(d, frames)| {
      ArrivalsEnd(d, Fresh(EncodeAll(d, frames)), script);
    }
  }

  function Zeros(n: nat): Bytes {
    seq(n, i => 0)
  }

  /** Output and an Exit frame, disturbed when the read has `k` bytes. */
  function LostFrames(k: nat, report: ExitReport): seq<EventFrame> {
    [Stdout(Zeros(if k < 5 then 0 else k - 4)), Exit(report)]
  }

  function LostScript(k: nat, other: Tick): seq<Tick> {
    [Arrived(k)] + ([other] + ([Arrived(5)] + []))
  }

  lemma TurnsCons(d: Dialect<EventFrame>, c: Client, tick: Tick, later: seq<Tick>)
    ensures Turns(d, c, [tick] + later) == Turns(d, Turn(d, c, tick), later)
  {
    assert ([tick] + later)[1..] == later;
  }

  lemma AllowedCons(d: Dialect<EventFrame>, may: nat -> bool, c: Client, tick: Tick, later: seq<Tick>)
    requires Disturbs(c, tick) && c.part != [] ==> may(|c.part|)
    requires Allowed(d, may, Turn(d, c, tick), later)
    ensures Allowed(d, may, c, [tick] + later)
  {
    assert ([tick] + later)[1..] == later;
  }

  /** A read takes what has arrived while it wants more. */
  lemma {:induction false} FeedTakes<T>(d: Dialect<T>, part: Bytes, rest: Bytes, n: nat)
    requires n <= |rest| && forall m: nat | m < n :: !Done(d, part + rest[..m])
    ensures Feed(d, part, rest, n) == (part + rest[..n], rest[n..])
    decreases n
  {
    assert part + rest[..0] == part;
    if n > 0 {
      var next := part + [rest[0]];
      assert !Done(d, part) by { assert !Done(d, part + rest[..0]); }
      forall m: nat | m < n - 1 ensures !Done(d, next + rest[1..][..m]) {
        assert next + rest[1..][..m] == part + rest[..m + 1];
      }
      FeedTakes(d, next, rest[1..], n - 1);
      assert next + rest[1..][..n - 1] == part + rest[..n];
    }
  }

  /** What the event kinds promise here: stdout goes out raw, and no kind is 0. */
  ghost predicate RawStdout(d: Dialect<EventFrame>) {
    Inverts(d) && !d.known(0) && forall z: Bytes :: d.kind(Stdout(z)) == 0x81 && d.payload(Stdout(z)) == z
  }

  lemma EventDialectIsRaw(exit: Json<ExitReport>, pong: Json<nat>)
    requires Lawful(exit) && Lawful(pong)
    ensures RawStdout(EventDialect(exit, pong))
  {
    EventDialectInverts(exit, pong);
  }

  /** The bytes of the lost frames: a header, zeros, and five bytes or more
      behind the disturbed read's place, which starts with a zero. */
  lemma LostBytes(d: Dialect<EventFrame>, k: nat, report: ExitReport)
    requires RawStdout(d) && 1 <= k < 5 + MAX_PAYLOAD && Fits(d, Exit(report))
    ensures AllFit(d, LostFrames(k, report))
    ensures var b := EncodeAll(d, LostFrames(k, report));
            && k + 5 <= |b| && b[k] == 0 && b[0] == 0x81
            && LeValue(b[1..5]) == (if k < 5 then 0 else k - 4)
  {
    var frames := LostFrames(k, report);
    var p := if k < 5 then 0 else k - 4;
    var first, last := Encode(d, frames[0]).value, Encode(d, frames[1]).value;
    assert d.payload(frames[0]) == Zeros(p);
    assert first == [0x81] + LeBytes(p) + Zeros(p);
    assert frames[1..] == [Exit(report)] && [Exit(report)][1..] == [];
    assert EncodeAll(d, [Exit(report)]) == last + EncodeAll(d, []);
    assert EncodeAll(d, frames) == first + EncodeAll(d, frames[1..]);
    LeInverts(p);
    assert EncodeAll(d, frames)[1..5] == LeBytes(p);
    assert |last| >= 5;
    if k < 5 {
      assert EncodeAll(d, frames)[k] == LeBytes(0)[k - 1] == 0;
    } else {
      assert EncodeAll(d, frames)[k] == Zeros(p)[k - 5];
    }
  }

  /** Whichever arm takes its branch there: the daemon wrote the output and the
      Exit frame, no read failed, and the client ends with neither. */
  lemma DisturbedReadLoses(
    d: Dialect<EventFrame>, k: nat, other: Tick, report: ExitReport, may: nat -> bool)
    requires (other.StdinReady? || other.SignalReady?) && may(k)
    requires RawStdout(d) && 1 <= k < 5 + MAX_PAYLOAD && Fits(d, Exit(report))
    ensures Whole(d, LostFrames(k, report))
    ensures var c := Turns(d, Fresh(EncodeAll(d, LostFrames(k, report))), LostScript(k, other));
            c.end.Broken? && c.shown == []
    ensures Allowed(d, may, Fresh(EncodeAll(d, LostFrames(k, report))), LostScript(k, other))
  {
    LostBytes(d, k, report);
    var frames := LostFrames(k, report);
    assert frames[..1] == [frames[0]];
    var b := EncodeAll(d, frames);
    ThreeTurns(d, b, k, other);
    var c0 := Fresh(b);
    var c1 := Turn(d, c0, Arrived(k));
    var c2 := Turn(d, c1, other);
    TurnsCons(d, c2, Arrived(5), []);
    TurnsCons(d, c1, other, [Arrived(5)] + []);
    TurnsCons(d, c0, Arrived(k), [other] + ([Arrived(5)] + []));
    AllowedCons(d, may, c2, Arrived(5), []);
    AllowedCons(d, may, c1, other, [Arrived(5)] + []);
    AllowedCons(d, may, c0, Arrived(k), [other] + ([Arrived(5)] + []));
  }

  lemma ThreeTurns(d: Dialect<EventFrame>, b: Bytes, k: nat, other: Tick)
    requires (other.StdinReady? || other.SignalReady?) && 1 <= k < 5 + MAX_PAYLOAD
    requires k + 5 <= |b| && b[k] == 0 && b[0] == 0x81 && d.known(0x81) && !d.known(0)
    requires LeValue(b[1..5]) == if k < 5 then 0 else k - 4
    ensures var c1 := Turn(d, Fresh(b), Arrived(k));
            var c2 := Turn(d, c1, other);
            var c3 := Turn(d, c2, Arrived(5));
            c1.part == b[..k] && c2.part == [] && c3.end.Broken? && c3.shown == []
  {
    FirstRead(d, b, k);
    var c1 := Turn(d, Fresh(b), Arrived(k));
    assert c1 == Fresh(b).(part := b[..k], rest := b[k..]);
    var c2 := Turn(d, c1, other);
    assert c2 == Fresh(b).(rest := b[k..], stdinOpen := c2.stdinOpen, signalsOpen := c2.signalsOpen);
    SecondRead(d, b[k..]);
  }

  lemma FirstRead(d: Dialect<EventFrame>, b: Bytes, k: nat)
    requires 1 <= k && k + 5 <= |b| && b[0] == 0x81 && d.known(0x81) && k < 5 + MAX_PAYLOAD
    requires LeValue(b[1..5]) == if k < 5 then 0 else k - 4
    ensures Feed(d, [], b, k) == (b[..k], b[k..]) && !Done(d, b[..k])
  {
    forall m: nat | m <= k ensures !Done(d, [] + b[..m]) {
      assert [] + b[..m] == b[..m];
      if m >= 5 {
        assert b[..m][1..5] == b[1..5];
      }
    }
    FeedTakes(d, [], b, k);
    assert [] + b[..k] == b[..k];
  }

  lemma SecondRead(d: Dialect<EventFrame>, b: Bytes)
    requires |b| >= 5 && b[0] == 0 && !d.known(0)
    ensures Feed(d, [], b, 5) == (b[..5], b[5..]) && Done(d, b[..5]) && ReadOne(d, b[..5]).Protocol?
  {
    FeedTakes(d, [], b, 5);
    assert [] + b[..5] == b[..5];
  }

  /** The client gets what it was sent in every run that `may` allows. */
  ghost predicate AlwaysRight(d: Dialect<EventFrame>, may: nat -> bool) {
    forall frames, script |
      Whole(d, frames) && Allowed(d, may, Fresh(EncodeAll(d, frames)), script) ::
      Right(frames, Turns(d, Fresh(EncodeAll(d, frames)), script))
  }

  /** It does exactly when no other branch is ever taken strictly inside a
      frame, at whatever place. */
  lemma RightExactly(d: Dialect<EventFrame>, may: nat -> bool)
    requires RawStdout(d) && exists report :: Fits(d, Exit(report))
    ensures AlwaysRight(d, may) <==> forall k | 1 <= k < 5 + MAX_PAYLOAD :: !may(k)
  {
    if k: nat :| 1 <= k < 5 + MAX_PAYLOAD && may(k) {
      var report :| Fits(d, Exit(report));
      var other := StdinReady(false);
      DisturbedReadLoses(d, k, other, report, may);
      var stream := Fresh(EncodeAll(d, LostFrames(k, report)));
      assert !Right(LostFrames(k, report), Turns(d, stream, LostScript(k, other)));
    } else {
      forall frames, script | Whole(d, frames) && Allowed(d, may, Fresh(EncodeAll(d, frames)), script)
        ensures Right(frames, Turns(d, Fresh(EncodeAll(d, frames)), script))
      {
        AllowedIsUndisturbed(d, may, Fresh(EncodeAll(d, frames)), script);
        ClientSees(d, frames, script);
      }
    }
  }

  /** A pending read never holds more than a maximal frame. */
  lemma {:induction false} AllowedIsUndisturbed(d: Dialect<EventFrame>, may: nat -> bool, c: Client, script: seq<Tick>)
    requires Allowed(d, may, c, script) && forall k | 1 <= k < 5 + MAX_PAYLOAD :: !may(k)
    requires c.end.Running? ==> Pending(d, c.part)
    ensures Undisturbed(d, c, script)
    decreases |script|
  {
    if script != [] {
      PendingKept(d, c, script[0]);
      AllowedIsUndisturbed(d, may, Turn(d, c, script[0]), script[1..]);
    }
  }

  lemma PendingKept(d: Dialect<EventFrame>, c: Client, tick: Tick)
    requires c.end.Running? ==> Pending(d, c.part)
    ensures var n := Turn(d, c, tick); n.end.Running? ==> Pending(d, n.part)
  {
    if c.end.Running? && tick.Arrived? {
      FeedStops(d, c.part, c.rest, tick.n);
    }
  }
}
