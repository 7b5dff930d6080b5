/** The control loop that turns serve's channel bytes into one outcome. */
module ExecChannel {
  import opened Prelude
  import opened FrameCodec

  datatype ChanEvent = Data(bytes: Bytes) | Log(text: Bytes) | Status(code: nat) | Closed

  datatype OutputEvent = Out(data: Bytes) | Err(data: Bytes)

  /** What `wait` gives the daemon: of a report its code, cwd and timeout flag. */
  datatype Outcome =
    | Reported(code: int, cwd: Option<string>, timedOut: bool)
    | DecodeFailed
    | NoReport(status: Option<nat>)

  function OutcomeOf(report: ExitReport): Outcome {
    Reported(report.code, report.cwd, report.timedOut)
  }

  predicate HasExit(frames: seq<EventFrame>) {
    exists k | 0 <= k < |frames| :: frames[k].Exit?
  }

  /** The position of the first Exit frame. */
  function ExitIndex(frames: seq<EventFrame>): (k: nat)
    ensures k <= |frames|
    ensures forall m | 0 <= m < k :: !frames[m].Exit?
    ensures k < |frames| ==> frames[k].Exit?
  {
    if frames == [] || frames[0].Exit? then 0 else 1 + ExitIndex(frames[1..])
  }

  /** What is forwarded to the client for a list of frames. */
  function Outputs(frames: seq<EventFrame>): seq<OutputEvent> {
    if frames == [] then []
    else match frames[0]
      case Stdout(d) => [Out(d)] + Outputs(frames[1..])
      case Stderr(d) => [Err(d)] + Outputs(frames[1..])
      case _ => Outputs(frames[1..])
  }

  lemma {:induction false} OutputsConcat(a: seq<EventFrame>, b: seq<EventFrame>)
    ensures Outputs(a + b) == Outputs(a) + Outputs(b)
  {
    if a == [] {
      assert a + b == b;
    } else {
      assert (a + b)[1..] == a[1..] + b;
      OutputsConcat(a[1..], b);
    }
  }

  /** The data chunks received before the channel closes. */
  function Chunks(events: seq<ChanEvent>): seq<Bytes> {
    if events == [] || events[0].Closed? then []
    else if events[0].Data? then [events[0].bytes] + Chunks(events[1..])
    else Chunks(events[1..])
  }

  function LastStatus(events: seq<ChanEvent>, known: Option<nat>): Option<nat> {
    if events == [] || events[0].Closed? then known
    else LastStatus(events[1..], if events[0].Status? then Some(events[0].code) else known)
  }

  /** Only data counts as data, up to the close: what stands on the channel
      besides it, and whatever comes behind the close, changes nothing. */
  lemma {:induction false} OnlyDataCounts(a: seq<ChanEvent>, e: ChanEvent, b: seq<ChanEvent>)
    requires forall k | 0 <= k < |a| :: !a[k].Closed?
    ensures Chunks(a + ([e] + b)) == Chunks(a) + (match e
                                                  case Data(d) => [d] + Chunks(b)
                                                  case Closed => []
                                                  case _ => Chunks(b))
  {
    if a == [] {
      assert a + ([e] + b) == [e] + b && ([e] + b)[1..] == b;
    } else {
      FrontOfConcat(a, [e] + b);
      OnlyDataCounts(a[1..], e, b);
    }
  }

  // -- the outcome, stated on accumulated bytes -------------------------------

  /** Decoding of everything received in the first `n` chunks. */
  function Upto(d: Dialect<EventFrame>, chunks: seq<Bytes>, n: nat): Decoded<EventFrame>
    requires n <= |chunks|
  {
    Decode(d, Flatten(chunks[..n]))
  }

  ghost predicate Settled(d: Dialect<EventFrame>, chunks: seq<Bytes>, n: nat)
    requires n <= |chunks|
  {
    Upto(d, chunks, n).bad || HasExit(Upto(d, chunks, n).frames)
  }

  /** Chunk `n - 1` is the first to bring an Exit frame or a bad one. */
  ghost predicate StopsAfter(d: Dialect<EventFrame>, chunks: seq<Bytes>, n: nat) {
    n <= |chunks| && Settled(d, chunks, n) && forall m: nat | m < n :: !Settled(d, chunks, m)
  }

  /** How an execution ends: a chunk that turns bad loses the whole chunk, an
      Exit frame in it included; a clean chunk with an Exit frame reports it. */
  ghost predicate Ends(d: Dialect<EventFrame>, chunks: seq<Bytes>, status: Option<nat>, r: Outcome,
                       out: seq<OutputEvent>) {
    if n: nat :| StopsAfter(d, chunks, n)
    then EndsAfter(d, chunks, n, r, out)
    else r == NoReport(status) && out == Outputs(Upto(d, chunks, |chunks|).frames)
  }

  ghost predicate EndsAfter(d: Dialect<EventFrame>, chunks: seq<Bytes>, n: nat, r: Outcome, out: seq<OutputEvent>)
    requires StopsAfter(d, chunks, n)
  {
    var frames := Upto(d, chunks, n).frames;
    if Upto(d, chunks, n).bad
    then r == DecodeFailed && n > 0 && out == Outputs(Upto(d, chunks, n - 1).frames)
    else ExitIndex(frames) < |frames| && r == OutcomeOf(frames[ExitIndex(frames)].report)
         && out == Outputs(frames[..ExitIndex(frames)])
  }

  lemma StopUnique(d: Dialect<EventFrame>, chunks: seq<Bytes>, n: nat, m: nat)
    requires StopsAfter(d, chunks, n) && StopsAfter(d, chunks, m)
    ensures n == m
  {
  }

  lemma StopGives(d: Dialect<EventFrame>, chunks: seq<Bytes>, n: nat, status: Option<nat>, r: Outcome,
                  out: seq<OutputEvent>)
    requires StopsAfter(d, chunks, n)
    ensures Ends(d, chunks, status, r, out) <==> EndsAfter(d, chunks, n, r, out)
  {
    var m: nat :| StopsAfter(d, chunks, m) && (Ends(d, chunks, status, r, out) <==> EndsAfter(d, chunks, m, r, out));
    StopUnique(d, chunks, n, m);
  }

  /** One more chunk, decoded behind the kept tail. */
  lemma UptoNext(d: Dialect<EventFrame>, chunks: seq<Bytes>, n: nat)
    requires n < |chunks| && !Upto(d, chunks, n).bad
    ensures Upto(d, chunks, n + 1) == Prepend(Upto(d, chunks, n).frames, Decode(d, Upto(d, chunks, n).tail + chunks[n]))
  {
    assert chunks[..n + 1] == chunks[..n] + [chunks[n]];
    FlattenConcat(chunks[..n], [chunks[n]]);
    FlattenOne(chunks[n]);
    DecodeExtends(d, Flatten(chunks[..n]), chunks[n]);
  }

  /** The control loop behind `n` chunks: nothing settled yet, the decoder
      holds the undecoded tail, everything decoded has been forwarded. */
  ghost predicate Waiting(d: Dialect<EventFrame>, chunks: seq<Bytes>, n: nat, buf: Bytes, out: seq<OutputEvent>) {
    && n <= |chunks|
    && (forall m: nat | m <= n :: !Settled(d, chunks, m))
    && buf == Upto(d, chunks, n).tail
    && out == Outputs(Upto(d, chunks, n).frames)
  }

  lemma PushFails(d: Dialect<EventFrame>, chunks: seq<Bytes>, n: nat, buf: Bytes, out: seq<OutputEvent>,
                  status: Option<nat>)
    requires Waiting(d, chunks, n, buf, out) && n < |chunks| && Decode(d, buf + chunks[n]).bad
    ensures Ends(d, chunks, status, DecodeFailed, out)
  {
    assert !Settled(d, chunks, n);
    UptoNext(d, chunks, n);
    assert StopsAfter(d, chunks, n + 1);
    StopGives(d, chunks, n + 1, status, DecodeFailed, out);
  }

  lemma PushPasses(d: Dialect<EventFrame>, chunks: seq<Bytes>, n: nat, buf: Bytes, out: seq<OutputEvent>)
    requires Waiting(d, chunks, n, buf, out) && n < |chunks|
    requires var one := Decode(d, buf + chunks[n]); !one.bad && !HasExit(one.frames)
    ensures var one := Decode(d, buf + chunks[n]); Waiting(d, chunks, n + 1, one.tail, out + Outputs(one.frames))
  {
    var one := Decode(d, buf + chunks[n]);
    assert !Settled(d, chunks, n);
    UptoNext(d, chunks, n);
    OutputsConcat(Upto(d, chunks, n).frames, one.frames);
  }

  lemma PushReports(d: Dialect<EventFrame>, chunks: seq<Bytes>, n: nat, buf: Bytes, sent: seq<OutputEvent>,
                    status: Option<nat>, frames: seq<EventFrame>, r: Outcome, out: seq<OutputEvent>)
    requires Waiting(d, chunks, n, buf, sent) && n < |chunks|
    requires Decode(d, buf + chunks[n]).frames == frames && !Decode(d, buf + chunks[n]).bad
    requires HasExit(frames) && ExitIndex(frames) < |frames|
    requires r == OutcomeOf(frames[ExitIndex(frames)].report) && out == sent + Outputs(frames[..ExitIndex(frames)])
    ensures Ends(d, chunks, status, r, out)
  {
    var before := Upto(d, chunks, n).frames;
    assert !Settled(d, chunks, n);
    UptoNext(d, chunks, n);
    ExitBehindOutputs(before, frames);
    StopsAtExit(d, chunks, n + 1, before + frames, status, r, out);
  }

  lemma StopsAtExit(d: Dialect<EventFrame>, chunks: seq<Bytes>, n: nat, all: seq<EventFrame>, status: Option<nat>,
                    r: Outcome, out: seq<OutputEvent>)
    requires 0 < n <= |chunks| && forall m: nat | m < n :: !Settled(d, chunks, m)
    requires !Upto(d, chunks, n).bad && Upto(d, chunks, n).frames == all
    requires HasExit(all) && ExitIndex(all) < |all|
    requires r == OutcomeOf(all[ExitIndex(all)].report) && out == Outputs(all[..ExitIndex(all)])
    ensures Ends(d, chunks, status, r, out)
  {
    assert StopsAfter(d, chunks, n);
    StopGives(d, chunks, n, status, r, out);
  }

  lemma ExitBehindOutputs(before: seq<EventFrame>, frames: seq<EventFrame>)
    requires !HasExit(before) && HasExit(frames)
    ensures HasExit(before + frames) && ExitIndex(frames) < |frames|
    ensures ExitIndex(before + frames) == |before| + ExitIndex(frames)
    ensures (before + frames)[|before| + ExitIndex(frames)] == frames[ExitIndex(frames)]
    ensures Outputs((before + frames)[..|before| + ExitIndex(frames)])
         == Outputs(before) + Outputs(frames[..ExitIndex(frames)])
  {
    ExitIndexBehind(before, frames);
    ElementBehind(before, frames, ExitIndex(frames));
    OutputsUpTo(before, frames, ExitIndex(frames));
  }

  lemma ElementBehind<T>(a: seq<T>, b: seq<T>, k: nat)
    requires k < |b|
    ensures (a + b)[|a| + k] == b[k]
  {
  }

  lemma OutputsUpTo(before: seq<EventFrame>, frames: seq<EventFrame>, k: nat)
    requires k <= |frames|
    ensures Outputs((before + frames)[..|before| + k]) == Outputs(before) + Outputs(frames[..k])
  {
    OutputsConcat(before, frames[..k]);
    assert (before + frames)[..|before| + k] == before + frames[..k];
  }

  lemma {:induction false} ExitIndexBehind(before: seq<EventFrame>, frames: seq<EventFrame>)
    requires !HasExit(before) && HasExit(frames)
    ensures HasExit(before + frames) && ExitIndex(frames) < |frames|
    ensures ExitIndex(before + frames) == |before| + ExitIndex(frames)
  {
    if before == [] {
      assert before + frames == frames;
    } else {
      assert !before[0].Exit?;
      assert (before + frames)[1..] == before[1..] + frames;
      ExitIndexBehind(before[1..], frames);
      assert (before + frames)[|before| + ExitIndex(frames)].Exit?;
    }
  }

  lemma ChannelGone(d: Dialect<EventFrame>, chunks: seq<Bytes>, buf: Bytes, out: seq<OutputEvent>, status: Option<nat>)
    requires Waiting(d, chunks, |chunks|, buf, out)
    ensures Ends(d, chunks, status, NoReport(status), out)
  {
  }

  /** ExecChannel::wait: decode, forward, stop at the Exit frame, at a decode
      failure, or when the channel is gone. */
  method Wait(d: Dialect<EventFrame>, events: seq<ChanEvent>) returns (r: Outcome, output: seq<OutputEvent>)
    ensures Ends(d, Chunks(events), LastStatus(events, None), r, output)
  {
    var decoder := new Decoder(d);
    var status: Option<nat> := None;
    output := [];
    ghost var chunks, final, n := Chunks(events), LastStatus(events, None), 0;
    assert chunks[..0] == [];
    var left := events;
    while left != []
      invariant decoder.dialect == d && Waiting(d, chunks, n, decoder.buf, output)
      invariant Chunks(left) == chunks[n..] && LastStatus(left, status) == final
      decreases |left|
    {
      match left[0] {
        case Closed =>
          ChannelGone(d, chunks, decoder.buf, output, status);
          return NoReport(status), output;
        case Data(bytes) =>
          assert chunks[n] == bytes && chunks[n..][1..] == chunks[n + 1..];
          ghost var was := decoder.buf;
          var frames := decoder.Push(bytes);
          if frames.None? {
            PushFails(d, chunks, n, was, output, final);
            return DecodeFailed, output;
          }
          ghost var sent := output;
          var exit;
          exit, output := Forward(frames.value, output);
          if exit.Some? {
            r := OutcomeOf(exit.value);
            PushReports(d, chunks, n, was, sent, final, frames.value, r, output);
            return;
          }
          assert ExitIndex(frames.value) == |frames.value|;
          PushPasses(d, chunks, n, was, sent);
          n := n + 1;
        case Log(_) =>
        case Status(code) => status := Some(code);
      }
      left := left[1..];
    }
    ChannelGone(d, chunks, decoder.buf, output, status);
    r := NoReport(status);
  }

  /** Forwarding the frames of one push, up to its first Exit frame. */
  method Forward(frames: seq<EventFrame>, sent: seq<OutputEvent>)
    returns (exit: Option<ExitReport>, output: seq<OutputEvent>)
    ensures exit.None? <==> !HasExit(frames)
    ensures exit.Some? ==> frames[ExitIndex(frames)] == Exit(exit.value)
    ensures output == sent + Outputs(frames[..ExitIndex(frames)])
    ensures exit.None? ==> output == sent + Outputs(frames)
  {
    output := sent;
    for k := 0 to |frames|
      invariant forall m | 0 <= m < k :: !frames[m].Exit?
      invariant output == sent + Outputs(frames[..k])
    {
      OutputsConcat(frames[..k], [frames[k]]);
      assert frames[..k] + [frames[k]] == frames[..k + 1];
      assert |[frames[k]][1..]| == 0;
      match frames[k] {
        case Stdout(data) => output := output + [Out(data)];
        case Stderr(data) => output := output + [Err(data)];
        case Exit(report) =>
          return Some(report), output;
        case Pong(_) =>
      }
    }
    assert ExitIndex(frames) == |frames| && frames[..|frames|] == frames;
    exit := None;
  }

  // -- what the split into chunks can and cannot change -----------------------

  /** What a stream of frames comes to, whatever the split. */
  function Verdict(frames: seq<EventFrame>, status: Option<nat>): Outcome {
    if ExitIndex(frames) < |frames| && frames[ExitIndex(frames)].Exit? then OutcomeOf(frames[ExitIndex(frames)].report)
    else NoReport(status)
  }

  lemma UptoPrefix(d: Dialect<EventFrame>, chunks: seq<Bytes>, n: nat)
    requires n <= |chunks| && !Decode(d, Flatten(chunks)).bad
    ensures !Upto(d, chunks, n).bad && Upto(d, chunks, n).frames <= Decode(d, Flatten(chunks)).frames
  {
    assert chunks == chunks[..n] + chunks[n..];
    FlattenConcat(chunks[..n], chunks[n..]);
    DecodeExtends(d, Flatten(chunks[..n]), Flatten(chunks[n..]));
  }

  lemma ExitIndexPrefix(a: seq<EventFrame>, b: seq<EventFrame>)
    requires a <= b && HasExit(a)
    ensures ExitIndex(a) == ExitIndex(b) < |a|
  {
  }

  /** On a well-formed stream the outcome and the forwarded output are a
      function of the frames alone: no split of the bytes can change them. */
  lemma CleanStreamOutcome(d: Dialect<EventFrame>, chunks: seq<Bytes>, status: Option<nat>, r: Outcome,
                           out: seq<OutputEvent>)
    requires !Decode(d, Flatten(chunks)).bad
    requires Ends(d, chunks, status, r, out)
    ensures var frames := Decode(d, Flatten(chunks)).frames;
            r == Verdict(frames, status) && out == Outputs(frames[..ExitIndex(frames)])
  {
    if n: nat :| StopsAfter(d, chunks, n) {
      StopGives(d, chunks, n, status, r, out);
      CleanStop(d, chunks, n, Decode(d, Flatten(chunks)).frames);
    } else {
      CleanEnd(d, chunks, Decode(d, Flatten(chunks)).frames);
    }
  }

  lemma CleanStop(d: Dialect<EventFrame>, chunks: seq<Bytes>, n: nat, frames: seq<EventFrame>)
    requires !Decode(d, Flatten(chunks)).bad && frames == Decode(d, Flatten(chunks)).frames
    requires StopsAfter(d, chunks, n)
    ensures var part := Upto(d, chunks, n).frames;
            && !Upto(d, chunks, n).bad && HasExit(part) && ExitIndex(part) == ExitIndex(frames) < |part| <= |frames|
            && part[ExitIndex(part)] == frames[ExitIndex(frames)]
            && part[..ExitIndex(part)] == frames[..ExitIndex(frames)]
  {
    UptoPrefix(d, chunks, n);
    ExitIndexPrefix(Upto(d, chunks, n).frames, frames);
  }

  lemma CleanEnd(d: Dialect<EventFrame>, chunks: seq<Bytes>, frames: seq<EventFrame>)
    requires !Decode(d, Flatten(chunks)).bad && frames == Decode(d, Flatten(chunks)).frames
    requires forall m: nat :: !StopsAfter(d, chunks, m)
    ensures !HasExit(frames) && frames[..ExitIndex(frames)] == frames && Upto(d, chunks, |chunks|).frames == frames
  {
    assert chunks[..|chunks|] == chunks;
    NeverStops(d, chunks, |chunks|);
  }

  lemma {:induction false} NeverStops(d: Dialect<EventFrame>, chunks: seq<Bytes>, n: nat)
    requires n <= |chunks| && forall m: nat :: !StopsAfter(d, chunks, m)
    ensures !Settled(d, chunks, n)
    decreases n
  {
    forall m: nat | m < n ensures !Settled(d, chunks, m) {
      NeverStops(d, chunks, m);
    }
    assert !StopsAfter(d, chunks, n);
  }

  /** serve's own wire, its frames followed by one Exit frame, in any split:
      the report arrives, and exactly the frames before it are forwarded. */
  lemma ServeReportArrives(d: Dialect<EventFrame>, frames: seq<EventFrame>, report: ExitReport,
                           chunks: seq<Bytes>, status: Option<nat>, r: Outcome, out: seq<OutputEvent>)
    requires Inverts(d) && AllFit(d, frames + [Exit(report)]) && !HasExit(frames)
    requires Flatten(chunks) == EncodeAll(d, frames + [Exit(report)])
    requires Ends(d, chunks, status, r, out)
    ensures r == OutcomeOf(report) && out == Outputs(frames)
  {
    var wire := frames + [Exit(report)];
    RoundTrip(d, wire, []);
    assert EncodeAll(d, wire) + [] == EncodeAll(d, wire);
    assert Decode(d, Flatten(chunks)) == Decoded(wire, [], false) by {
      assert Decode<EventFrame>(d, []) == Decoded([], [], false) && wire + [] == wire;
    }
    CleanStreamOutcome(d, chunks, status, r, out);
    assert wire[|frames|].Exit?;
    assert ExitIndex(wire) == |frames| && wire[..|frames|] == frames;
  }

  // -- what the daemon makes of the outcome -----------------------------------

  const INTERNAL_ERROR_CODE: int := 254

  /** The report sent on to the client; `message` describes a failed execution. */
  function SentOn(r: Outcome, message: string): ExitReport {
    match r
    case Reported(code, cwd, timedOut) => ExitReport(code, cwd, None, timedOut)
    case _ => ExitReport(INTERNAL_ERROR_CODE, None, Some(message), false)
  }

  /** "The daemon forwards serve's report unchanged" holds exactly for reports
      without an error of serve's own. */
  lemma ForwardedUnchangedExactly(d: Dialect<EventFrame>, frames: seq<EventFrame>, report: ExitReport,
                                  chunks: seq<Bytes>, status: Option<nat>, r: Outcome, out: seq<OutputEvent>,
                                  message: string)
    requires Inverts(d) && AllFit(d, frames + [Exit(report)]) && !HasExit(frames)
    requires Flatten(chunks) == EncodeAll(d, frames + [Exit(report)])
    requires Ends(d, chunks, status, r, out)
    ensures SentOn(r, message) == report <==> report.error == None
  {
    ServeReportArrives(d, frames, report, chunks, status, r, out);
  }

  /** A failed spawn, say: its message is lost in every split of the wire, and
      the client gets code 254 with no error at all. */
  lemma SpawnErrorLost(d: Dialect<EventFrame>, error: string, chunks: seq<Bytes>, status: Option<nat>, r: Outcome,
                       out: seq<OutputEvent>, message: string)
    requires Inverts(d)
    requires var wire := [Exit(ExitReport(INTERNAL_ERROR_CODE, None, Some(error), false))];
             AllFit(d, wire) && Flatten(chunks) == EncodeAll(d, wire)
    requires Ends(d, chunks, status, r, out)
    ensures SentOn(r, message) == ExitReport(INTERNAL_ERROR_CODE, None, None, false)
  {
    var report := ExitReport(INTERNAL_ERROR_CODE, None, Some(error), false);
    assert [] + [Exit(report)] == [Exit(report)];
    ServeReportArrives(d, [], report, chunks, status, r, out);
  }

  /** Some split of `b` ends in `r`. */
  ghost predicate SomeSplitEnds(d: Dialect<EventFrame>, b: Bytes, status: Option<nat>, r: Outcome) {
    exists chunks, out :: Flatten(chunks) == b && Ends(d, chunks, status, r, out)
  }

  /** The split decides the outcome exactly for a stream that goes bad behind
      an Exit frame: delivered as one chunk it fails, cut behind the Exit frame
      it reports; for every other stream all splits end the same way. */
  lemma SplitMattersExactly(d: Dialect<EventFrame>, b: Bytes, status: Option<nat>)
    ensures (exists r, s :: r != s && SomeSplitEnds(d, b, status, r) && SomeSplitEnds(d, b, status, s))
        <==> Decode(d, b).bad && HasExit(Decode(d, b).frames)
  {
    if Decode(d, b).bad && HasExit(Decode(d, b).frames) {
      OneChunkFails(d, b, status);
      var r := CutBehindExit(d, b, status);
      assert r != DecodeFailed;
    } else {
      forall r, s | SomeSplitEnds(d, b, status, r) && SomeSplitEnds(d, b, status, s) ensures r == s {
        var cs, out :| Flatten(cs) == b && Ends(d, cs, status, r, out);
        var cs', out' :| Flatten(cs') == b && Ends(d, cs', status, s, out');
        if Decode(d, b).bad {
          BadWithoutExit(d, cs, status, r, out);
          BadWithoutExit(d, cs', status, s, out');
        } else {
          CleanStreamOutcome(d, cs, status, r, out);
          CleanStreamOutcome(d, cs', status, s, out');
        }
      }
    }
  }

  lemma OneChunkFails(d: Dialect<EventFrame>, b: Bytes, status: Option<nat>)
    requires Decode(d, b).bad
    ensures SomeSplitEnds(d, b, status, DecodeFailed)
  {
    var chunks := [b];
    FlattenOne(b);
    assert chunks[..1] == chunks && chunks[..0] == [];
    assert !Settled(d, chunks, 0) && Settled(d, chunks, 1);
    assert StopsAfter(d, chunks, 1);
    StopGives(d, chunks, 1, status, DecodeFailed, Outputs(Upto(d, chunks, 0).frames));
    assert Ends(d, chunks, status, DecodeFailed, Outputs(Upto(d, chunks, 0).frames));
  }

  /** The first `n` bytes decode cleanly to the first `k` frames. */
  ghost predicate Cuts(d: Dialect<EventFrame>, b: Bytes, k: nat, n: nat) {
    && k <= |Decode(d, b).frames| && n <= |b|
    && Decode(d, b[..n]) == Decoded(Decode(d, b).frames[..k], [], false)
  }

  lemma {:induction false} FramesEnd(d: Dialect<EventFrame>, b: Bytes, k: nat) returns (n: nat)
    requires k <= |Decode(d, b).frames|
    ensures Cuts(d, b, k, n)
    decreases k
  {
    if k == 0 {
      n := 0;
      assert b[..0] == [];
    } else {
      var f, size := FirstFrame(d, b);
      var m := FramesEnd(d, b[size..], k - 1);
      FrameThen(d, b, f, size, m, k - 1);
      n := size + m;
    }
  }

  lemma FirstFrame(d: Dialect<EventFrame>, b: Bytes) returns (f: EventFrame, size: nat)
    requires Decode(d, b).frames != []
    ensures FrontOf(d, b) == Whole(f, size) && size <= |b|
    ensures |Decode(d, b[size..]).frames| == |Decode(d, b).frames| - 1
  {
    var front := FrontOf(d, b);
    f, size := front.frame, front.size;
    DecodeWhole(d, b, f, size);
  }

  lemma FrameThen(d: Dialect<EventFrame>, b: Bytes, f: EventFrame, size: nat, m: nat, k: nat)
    requires FrontOf(d, b) == Whole(f, size) && Cuts(d, b[size..], k, m)
    ensures Cuts(d, b, k + 1, size + m)
  {
    FrameCut(d, b, f, size, b[size..], m);
    DecodeWhole(d, b, f, size);
    Prefix([f], Decode(d, b[size..]).frames, k + 1);
  }

  lemma FrameCut(d: Dialect<EventFrame>, b: Bytes, f: EventFrame, size: nat, rest: Bytes, m: nat)
    requires FrontOf(d, b) == Whole(f, size) && rest == b[size..] && m <= |rest|
    ensures Decode(d, b[..size + m]) == Prepend([f], Decode(d, rest[..m]))
  {
    assert b[..size + m] == b[..size] + rest[..m];
    OneFrameCut(d, b, f, size, rest[..m]);
  }

  lemma OneFrameCut(d: Dialect<EventFrame>, b: Bytes, f: EventFrame, size: nat, more: Bytes)
    requires FrontOf(d, b) == Whole(f, size)
    ensures Decode(d, b[..size] + more) == Prepend([f], Decode(d, more))
  {
    assert b[..size][1..5] == b[1..5] && b[..size][5..size] == b[5..size];
    FrontStable(d, b[..size], more);
    DecodeWhole(d, b[..size] + more, f, size);
    assert (b[..size] + more)[size..] == more;
  }

  lemma TwoChunks(d: Dialect<EventFrame>, a: Bytes, b: Bytes)
    requires !Decode(d, a).bad && HasExit(Decode(d, a).frames)
    ensures Flatten([a, b]) == a + b
    ensures StopsAfter(d, [a, b], 1) && Upto(d, [a, b], 1) == Decode(d, a)
  {
    var chunks := [a, b];
    FlattenOne(a);
    FlattenOne(b);
    assert chunks[1..] == [b] && chunks[..0] == [] && chunks[..1] == [a];
    assert !Settled(d, chunks, 0) && Settled(d, chunks, 1);
  }

  lemma CutBehindExit(d: Dialect<EventFrame>, b: Bytes, status: Option<nat>) returns (r: Outcome)
    requires HasExit(Decode(d, b).frames)
    ensures r.Reported? && SomeSplitEnds(d, b, status, r)
  {
    var k := ExitIndex(Decode(d, b).frames);
    var n := FramesEnd(d, b, k + 1);
    assert Decode(d, b[..n]).frames[k].Exit?;
    assert b[..n] + b[n..] == b;
    r := FirstChunkReports(d, b[..n], b[n..], status);
  }

  lemma FirstChunkReports(d: Dialect<EventFrame>, a: Bytes, b: Bytes, status: Option<nat>) returns (r: Outcome)
    requires !Decode(d, a).bad && HasExit(Decode(d, a).frames)
    ensures r.Reported? && SomeSplitEnds(d, a + b, status, r)
  {
    var part := Decode(d, a).frames;
    TwoChunks(d, a, b);
    r := OutcomeOf(part[ExitIndex(part)].report);
    var out := Outputs(part[..ExitIndex(part)]);
    StopGives(d, [a, b], 1, status, r, out);
    assert Flatten([a, b]) == a + b && Ends(d, [a, b], status, r, out);
  }

  lemma BadWithoutExit(d: Dialect<EventFrame>, chunks: seq<Bytes>, status: Option<nat>, r: Outcome,
                       out: seq<OutputEvent>)
    requires Decode(d, Flatten(chunks)).bad && !HasExit(Decode(d, Flatten(chunks)).frames)
    requires Ends(d, chunks, status, r, out)
    ensures r == DecodeFailed
  {
    assert chunks[..|chunks|] == chunks;
    assert Settled(d, chunks, |chunks|);
    if n: nat :| StopsAfter(d, chunks, n) {
      StopGives(d, chunks, n, status, r, out);
      FramesStand(d, chunks, n);
    } else {
      NeverStops(d, chunks, |chunks|);
    }
  }

  /** Frames decoded from the first chunks are frames of the whole stream. */
  lemma FramesStand(d: Dialect<EventFrame>, chunks: seq<Bytes>, n: nat)
    requires n <= |chunks|
    ensures HasExit(Upto(d, chunks, n).frames) ==> HasExit(Decode(d, Flatten(chunks)).frames)
  {
    assert chunks == chunks[..n] + chunks[n..];
    FlattenConcat(chunks[..n], chunks[n..]);
    DecodeExtends(d, Flatten(chunks[..n]), Flatten(chunks[n..]));
    var part, all := Upto(d, chunks, n).frames, Decode(d, Flatten(chunks)).frames;
    assert part <= all;
    if HasExit(part) {
      var k :| 0 <= k < |part| && part[k].Exit?;
      assert all[k].Exit?;
    }
  }
}
