/** The wire framing `[kind][u32 LE length][payload]`: encoder, the one simple
    specification of decoding, and the incremental decoder over chunks. */
module FrameCodec {
  import opened Prelude

  const MAX_PAYLOAD: nat := 16 * 1024 * 1024
  const U32_LIMIT: nat := 0x1_0000_0000
  const PACKED_PAYLOAD_MAX: nat := 8 * 1024

  // -- frame types ------------------------------------------------------------

  datatype Signal = Int | Term | Kill | Hup

  datatype ExitReport = ExitReport(code: int, cwd: Option<string>, error: Option<string>, timedOut: bool)

  datatype EventFrame = Stdout(data: Bytes) | Stderr(data: Bytes) | Exit(report: ExitReport) | Pong(pid: nat)

  datatype ExecFrame<E> = Exec(request: E) | StdinData(data: Bytes) | StdinEof | Signaled(signal: Signal) | Ping

  /** A JSON codec for one type; only its round trip is assumed. */
  datatype Json<!T> = Json(encode: T -> Bytes, decode: Bytes -> Option<T>)

  ghost predicate Lawful<T(!new)>(j: Json<T>) {
    forall x: T :: j.decode(j.encode(x)) == Some(x)
  }

  /** One direction of the protocol: how a frame is taken apart and how a kind
      and payload are put together. `decode` is None for a payload that does
      not parse; it is consulted only for known kinds. */
  datatype Dialect<!T> = Dialect(
    kind: T -> byte,
    payload: T -> Bytes,
    known: byte -> bool,
    decode: (byte, Bytes) -> Option<T>)

  ghost predicate Inverts<T(!new)>(d: Dialect<T>) {
    forall f: T :: d.known(d.kind(f)) && d.decode(d.kind(f), d.payload(f)) == Some(f)
  }

  function EventKind(f: EventFrame): byte {
    match f case Stdout(_) => 0x81 case Stderr(_) => 0x82 case Exit(_) => 0x83 case Pong(_) => 0x84
  }

  function EventPayload(f: EventFrame, exit: Json<ExitReport>, pong: Json<nat>): Bytes {
    match f case Stdout(d) => d case Stderr(d) => d case Exit(r) => exit.encode(r) case Pong(p) => pong.encode(p)
  }

  function DecodeEvent(kind: byte, payload: Bytes, exit: Json<ExitReport>, pong: Json<nat>): Option<EventFrame> {
    if kind == 0x81 then Some(Stdout(payload))
    else if kind == 0x82 then Some(Stderr(payload))
    else if kind == 0x83 then
      match exit.decode(payload) case Some(r) => Some(Exit(r)) case None => None
    else if kind == 0x84 then
      match pong.decode(payload) case Some(p) => Some(Pong(p)) case None => None
    else None
  }

  function EventDialect(exit: Json<ExitReport>, pong: Json<nat>): Dialect<EventFrame> {
    Dialect(f => EventKind(f), f => EventPayload(f, exit, pong), k => 0x81 <= k <= 0x84,
            (k, p) => DecodeEvent(k, p, exit, pong))
  }

  function ExecKind<E>(f: ExecFrame<E>): byte {
    match f case Exec(_) => 1 case StdinData(_) => 2 case StdinEof => 3 case Signaled(_) => 4 case Ping => 5
  }

  function ExecPayload<E>(f: ExecFrame<E>, request: Json<E>, signal: Json<Signal>): Bytes {
    match f
    case Exec(r) => request.encode(r)
    case StdinData(d) => d
    case Signaled(s) => signal.encode(s)
    case _ => []
  }

  /** The payloads of StdinEof and Ping are ignored. */
  function DecodeExec<E>(kind: byte, payload: Bytes, request: Json<E>, signal: Json<Signal>): Option<ExecFrame<E>> {
    if kind == 1 then
      match request.decode(payload) case Some(r) => Some(Exec(r)) case None => None
    else if kind == 2 then Some(StdinData(payload))
    else if kind == 3 then Some(StdinEof)
    else if kind == 4 then
      match signal.decode(payload) case Some(s) => Some(Signaled(s)) case None => None
    else if kind == 5 then Some(Ping)
    else None
  }

  function ExecDialect<E>(request: Json<E>, signal: Json<Signal>): Dialect<ExecFrame<E>> {
    Dialect(f => ExecKind(f), f => ExecPayload(f, request, signal), k => 1 <= k <= 5,
            (k, p) => DecodeExec(k, p, request, signal))
  }

  /** Both directions satisfy the law the codec theorems are stated for. */
  lemma EventDialectInverts(exit: Json<ExitReport>, pong: Json<nat>)
    requires Lawful(exit) && Lawful(pong)
    ensures Inverts(EventDialect(exit, pong))
  {
  }

  lemma ExecDialectInverts<E(!new)>(request: Json<E>, signal: Json<Signal>)
    requires Lawful(request) && Lawful(signal)
    ensures Inverts(ExecDialect(request, signal))
  {
  }

  // -- encoding ---------------------------------------------------------------

  /** `u32::to_le_bytes`. */
  function LeBytes(n: nat): (b: Bytes)
    requires n < U32_LIMIT
    ensures |b| == 4
  {
    [n % 256, n / 256 % 256, n / 65536 % 256, n / 16777216]
  }

  /** `u32::from_le_bytes`. */
  function LeValue(b: Bytes): (n: nat)
    requires |b| == 4
    ensures n < U32_LIMIT
  {
    (b[0] as int) + 256 * (b[1] as int) + 65536 * (b[2] as int) + 16777216 * (b[3] as int)
  }

  lemma LeInverts(n: nat)
    requires n < U32_LIMIT
    ensures LeValue(LeBytes(n)) == n
  {
    assert n / 65536 == n / 256 / 256 && n / 16777216 == n / 256 / 256 / 256;
  }

  /** The value of little-endian digits to the base 256. */
  function PlaceValue(b: Bytes): nat {
    if b == [] then 0 else b[0] as nat + 256 * PlaceValue(b[1..])
  }

  /** The length is little-endian, least significant byte first. */
  lemma LeIsPlaceValue(b: Bytes)
    requires |b| == 4
    ensures LeValue(b) == PlaceValue(b)
  {
    assert PlaceValue(b[4..]) == 0 && b[3..][1..] == b[4..] && b[2..][1..] == b[3..] && b[1..][1..] == b[2..];
    assert PlaceValue(b[3..]) == b[3] as nat;
    assert PlaceValue(b[2..]) == b[2] as nat + 256 * b[3] as nat;
    assert PlaceValue(b[1..]) == b[1] as nat + 256 * (b[2] as nat + 256 * b[3] as nat);
  }

  /** The header is rejected only when the length does not fit 32 bits. */
  function FrameHeader(kind: byte, len: nat): Option<Bytes> {
    if len < U32_LIMIT then Some([kind] + LeBytes(len)) else None
  }

  function EncodeRaw(kind: byte, payload: Bytes): Option<Bytes> {
    match FrameHeader(kind, |payload|)
    case Some(hdr) => Some(hdr + payload)
    case None => None
  }

  function Encode<T>(d: Dialect<T>, f: T): Option<Bytes> {
    EncodeRaw(d.kind(f), d.payload(f))
  }

  /** The wire image of a frame: its kind, the length of its payload, least
      significant byte first, and the payload. */
  ghost predicate Image(w: Bytes, kind: byte, payload: Bytes) {
    |w| >= 5 && w[0] == kind && PlaceValue(w[1..5]) == |payload| && w[5..] == payload
  }

  lemma EncodedImage<T>(d: Dialect<T>, f: T)
    requires |d.payload(f)| < U32_LIMIT
    ensures Encode(d, f).Some? && Image(Encode(d, f).value, d.kind(f), d.payload(f))
  {
    var w := Encode(d, f).value;
    assert w[1..5] == LeBytes(|d.payload(f)|) && w[5..] == d.payload(f);
    LeInverts(|d.payload(f)|);
    LeIsPlaceValue(w[1..5]);
  }

  /** The bytes of output, of the report, of stdin and of a signal on the wire,
      kind by kind. */
  lemma WireFormat<E>(exit: Json<ExitReport>, pong: Json<nat>, request: Json<E>, signal: Json<Signal>,
                      d: Bytes, report: ExitReport, s: Signal)
    requires |d| < U32_LIMIT && |exit.encode(report)| < U32_LIMIT && |signal.encode(s)| < U32_LIMIT
    ensures var out := EventDialect(exit, pong);
            && Encode(out, Stdout(d)).Some? && Image(Encode(out, Stdout(d)).value, 0x81, d)
            && Encode(out, Stderr(d)).Some? && Image(Encode(out, Stderr(d)).value, 0x82, d)
            && Encode(out, Exit(report)).Some? && Image(Encode(out, Exit(report)).value, 0x83, exit.encode(report))
    ensures var up := ExecDialect(request, signal);
            && Encode(up, StdinData(d)).Some? && Image(Encode(up, StdinData(d)).value, 2, d)
            && Encode(up, StdinEof).Some? && Image(Encode(up, StdinEof).value, 3, [])
            && Encode(up, Signaled(s)).Some? && Image(Encode(up, Signaled(s)).value, 4, signal.encode(s))
  {
    EncodedImage(EventDialect(exit, pong), Stdout(d));
    EncodedImage(EventDialect(exit, pong), Stderr(d));
    EncodedImage(EventDialect(exit, pong), Exit(report));
    EncodedImage(ExecDialect(request, signal), StdinData(d));
    EncodedImage(ExecDialect(request, signal), StdinEof);
    EncodedImage(ExecDialect(request, signal), Signaled(s));
  }

  /** Payloads both decoders accept. */
  predicate Fits<T>(d: Dialect<T>, f: T) {
    |d.payload(f)| <= MAX_PAYLOAD
  }

  // -- the specification of decoding ------------------------------------------

  /** The front of a byte stream: a whole frame, a frame that is not there yet,
      or something that can never become a frame. */
  datatype Front<+T> = NeedMore | Bad | Whole(frame: T, size: nat)

  function FrontOf<T>(d: Dialect<T>, b: Bytes): (r: Front<T>)
    ensures r.Whole? ==> 5 <= r.size <= |b| && r.size <= 5 + MAX_PAYLOAD
  {
    if |b| < 5 then NeedMore
    else
      var len := LeValue(b[1..5]);
      if len > MAX_PAYLOAD then Bad
      else if |b| < 5 + len then NeedMore
      else if !d.known(b[0]) then Bad
      else match d.decode(b[0], b[5..5 + len]) case Some(f) => Whole(f, 5 + len) case None => Bad
  }

  datatype Decoded<+T> = Decoded(frames: seq<T>, tail: Bytes, bad: bool)

  /** Decoding a whole byte stream: every frame up to the first bad one. */
  function Decode<T>(d: Dialect<T>, b: Bytes): Decoded<T>
    decreases |b|
  {
    match FrontOf(d, b)
    case NeedMore => Decoded([], b, false)
    case Bad => Decoded([], b, true)
    case Whole(f, n) =>
      var rest := Decode(d, b[n..]);
      Decoded([f] + rest.frames, rest.tail, rest.bad)
  }

  /** What is settled about the front stays settled when more bytes arrive. */
  lemma FrontStable<T>(d: Dialect<T>, a: Bytes, b: Bytes)
    requires !FrontOf(d, a).NeedMore?
    ensures FrontOf(d, a + b) == FrontOf(d, a)
  {
    assert (a + b)[1..5] == a[1..5];
    var len := LeValue(a[1..5]);
    if len <= MAX_PAYLOAD {
      assert (a + b)[5..5 + len] == a[5..5 + len];
    }
  }

  /** Frames decoded earlier, put in front of what is decoded later. */
  function Prepend<T>(frames: seq<T>, r: Decoded<T>): Decoded<T> {
    Decoded(frames + r.frames, r.tail, r.bad)
  }

  lemma PrependTwice<T>(a: seq<T>, b: seq<T>, r: Decoded<T>)
    ensures Prepend(a, Prepend(b, r)) == Prepend(a + b, r)
    ensures Prepend([], r) == r
  {
    assert a + (b + r.frames) == (a + b) + r.frames;
    assert [] + r.frames == r.frames;
  }

  /** One step of decoding, at a whole frame. */
  lemma DecodeWhole<T>(d: Dialect<T>, b: Bytes, f: T, n: nat)
    requires FrontOf(d, b) == Whole(f, n)
    ensures n <= |b| && Decode(d, b) == Prepend([f], Decode(d, b[n..]))
  {
  }

  /** Decoding goes on where it stopped: the frames of a prefix stand, and
      only its tail is looked at again. */
  lemma {:induction false} DecodeExtends<T>(d: Dialect<T>, a: Bytes, b: Bytes)
    ensures var p, all := Decode(d, a), Decode(d, a + b);
            if p.bad then all.bad && all.frames == p.frames
            else all == Prepend(p.frames, Decode(d, p.tail + b))
    decreases |a|
  {
    match FrontOf(d, a) {
      case NeedMore => PrependTwice([], [], Decode(d, a + b));
      case Bad => FrontStable(d, a, b);
      case Whole(f, n) =>
        FrontStable(d, a, b);
        DecodeWhole(d, a, f, n);
        DecodeWhole(d, a + b, f, n);
        assert (a + b)[n..] == a[n..] + b;
        DecodeExtends(d, a[n..], b);
        var p := Decode(d, a[n..]);
        if !p.bad {
          PrependTwice([f], p.frames, Decode(d, p.tail + b));
        }
    }
  }

  /** A kept tail never contains a whole frame, and stays below one maximal
      frame. */
  lemma {:induction false} TailBounded<T>(d: Dialect<T>, b: Bytes)
    ensures var r := Decode(d, b); !r.bad ==> FrontOf(d, r.tail).NeedMore? && |r.tail| < 5 + MAX_PAYLOAD
    decreases |b|
  {
    var front := FrontOf(d, b);
    if front.Whole? {
      TailBounded(d, b[front.size..]);
    }
  }

  // -- the incremental decoder ------------------------------------------------

  /** EventDecoder: buffers what is not a whole frame yet. A failing push
      reports no frames, not even those completed earlier in the same push. */
  class Decoder<T> {
    const dialect: Dialect<T>
    var buf: Bytes

    constructor (d: Dialect<T>)
      ensures dialect == d && buf == []
    {
      dialect := d;
      buf := [];
    }

    method Push(chunk: Bytes) returns (r: Option<seq<T>>)
      modifies this
      ensures var spec := Decode(dialect, old(buf) + chunk);
              if spec.bad then r == None else r == Some(spec.frames) && buf == spec.tail
    {
      buf := buf + chunk;
      ghost var all := buf;
      var out: seq<T> := [];
      PrependTwice([], [], Decode(dialect, all));
      while |buf| >= 5
        invariant Decode(dialect, all) == Prepend(out, Decode(dialect, buf))
        decreases |buf|
      {
        var len := LeValue(buf[1..5]);
        if len > MAX_PAYLOAD {
          return None;
        }
        if |buf| < 5 + len {
          break;
        }
        if !dialect.known(buf[0]) {
          return None;
        }
        var kind, payload := buf[0], buf[5..5 + len];
        ghost var was := buf;
        buf := buf[5 + len..];
        var frame := dialect.decode(kind, payload);
        if frame.None? {
          return None;
        }
        DecodeWhole(dialect, was, frame.value, 5 + len);
        PrependTwice(out, [frame.value], Decode(dialect, buf));
        out := out + [frame.value];
      }
      assert Decode(dialect, buf) == Decoded([], buf, false);
      assert out + [] == out;
      return Some(out);
    }
  }

  // -- any split into pushes --------------------------------------------------

  /** The outcome of a whole run of pushes, as the decoder's contract gives it:
      the frames reported until one fails, the kept buffer, and how many
      pushes succeeded. */
  datatype Run<+T> = Run(frames: seq<T>, buf: Bytes, failed: bool, good: nat)

  function Pushes<T>(d: Dialect<T>, buf: Bytes, chunks: seq<Bytes>): Run<T>
    decreases |chunks|
  {
    if chunks == [] then Run([], buf, false, 0)
    else
      var one := Decode(d, buf + chunks[0]);
      if one.bad then Run([], buf, true, 0)
      else After(one.frames, 1, Pushes(d, one.tail, chunks[1..]))
  }

  /** A run continued behind `good` successful pushes that reported `frames`. */
  function After<T>(frames: seq<T>, good: nat, r: Run<T>): Run<T> {
    Run(frames + r.frames, r.buf, r.failed, good + r.good)
  }

  lemma AfterTwice<T>(a: seq<T>, m: nat, b: seq<T>, n: nat, r: Run<T>)
    ensures After(a, m, After(b, n, r)) == After(a + b, m + n, r)
    ensures After([], 0, r) == r
  {
    assert a + (b + r.frames) == (a + b) + r.frames;
    assert [] + r.frames == r.frames;
  }

  /** Driving the decoder over a list of chunks, stopping at a failed push. */
  method PushAll<T>(d: Dialect<T>, chunks: seq<Bytes>) returns (frames: seq<T>, failed: bool, good: nat)
    ensures var run := Pushes(d, [], chunks);
            frames == run.frames && failed == run.failed && good == run.good
  {
    var decoder := new Decoder(d);
    frames, failed, good := [], false, 0;
    AfterTwice([], 0, [], 0, Pushes(d, [], chunks));
    assert chunks[0..] == chunks;
    while good < |chunks|
      invariant good <= |chunks| && decoder.dialect == d
      invariant Pushes(d, [], chunks) == After(frames, good, Pushes(d, decoder.buf, chunks[good..]))
    {
      ghost var left, was := chunks[good..], decoder.buf;
      assert left[0] == chunks[good] && left[1..] == chunks[good + 1..];
      var r := decoder.Push(chunks[good]);
      if r.None? {
        assert Pushes(d, was, left) == Run([], was, true, 0);
        assert frames + [] == frames;
        return frames, true, good;
      }
      AfterTwice(frames, good, r.value, 1, Pushes(d, decoder.buf, left[1..]));
      frames := frames + r.value;
      good := good + 1;
    }
    assert frames + [] == frames;
  }

  /** The run agrees with decoding the whole at once: on a well-formed stream
      it reports the frames of the whole and keeps its undecoded tail;
      otherwise it reports the frames of the stream up to the failing push,
      which is the one whose accumulated bytes first fail. */
  ghost predicate Agrees<T>(d: Dialect<T>, buf: Bytes, chunks: seq<Bytes>, run: Run<T>) {
    var whole := Decode(d, buf + Flatten(chunks));
    && run.failed == whole.bad
    && run.good <= |chunks|
    && (if whole.bad
        then run.good < |chunks|
             && Decode(d, buf + Flatten(chunks[..run.good + 1])).bad
             && !Decode(d, buf + Flatten(chunks[..run.good])).bad
             && run.frames == Decode(d, buf + Flatten(chunks[..run.good])).frames
        else run.frames == whole.frames && run.buf == whole.tail && run.good == |chunks|)
  }

  /** Chunk independence, for every byte stream and every split into pushes. */
  lemma {:induction false} ChunkIndependent<T>(d: Dialect<T>, buf: Bytes, chunks: seq<Bytes>)
    requires Decode(d, buf) == Decoded([], buf, false)
    ensures Agrees(d, buf, chunks, Pushes(d, buf, chunks))
    decreases |chunks|
  {
    if chunks == [] {
      assert buf + Flatten(chunks) == buf;
    } else {
      var head := buf + chunks[0];
      var one := Decode(d, head);
      if one.bad {
        FailsAtFirst(d, buf, chunks);
      } else {
        TailBounded(d, head);
        assert Decode(d, one.tail) == Decoded([], one.tail, false);
        ChunkIndependent(d, one.tail, chunks[1..]);
        AgreesOneLater(d, buf, chunks, Pushes(d, one.tail, chunks[1..]));
      }
    }
  }

  lemma FailsAtFirst<T>(d: Dialect<T>, buf: Bytes, chunks: seq<Bytes>)
    requires Decode(d, buf) == Decoded([], buf, false)
    requires chunks != [] && Decode(d, buf + chunks[0]).bad
    ensures Agrees(d, buf, chunks, Run([], buf, true, 0))
  {
    DecodeExtends(d, buf + chunks[0], Flatten(chunks[1..]));
    assert buf + Flatten(chunks) == (buf + chunks[0]) + Flatten(chunks[1..]);
    assert chunks[..0] == [] && buf + Flatten(chunks[..0]) == buf;
    FlattenOne(chunks[0]);
    assert chunks[..1] == [chunks[0]];
  }

  /** Moves an agreement past one successful push. */
  lemma AgreesOneLater<T>(d: Dialect<T>, buf: Bytes, chunks: seq<Bytes>, run: Run<T>)
    requires chunks != [] && !Decode(d, buf + chunks[0]).bad
    requires Agrees(d, Decode(d, buf + chunks[0]).tail, chunks[1..], run)
    ensures Agrees(d, buf, chunks, After(Decode(d, buf + chunks[0]).frames, 1, run))
  {
    var n := run.good;
    SplitPoint(d, buf, chunks, |chunks| - 1);
    SplitPoint(d, buf, chunks, n);
    assert chunks[1..][..|chunks| - 1] == chunks[1..] && chunks[..|chunks|] == chunks;
    if run.failed {
      SplitPoint(d, buf, chunks, n + 1);
    }
  }

  /** Decoding up to a later split point, seen from behind the first push. */
  lemma SplitPoint<T>(d: Dialect<T>, buf: Bytes, chunks: seq<Bytes>, n: nat)
    requires 0 < |chunks| && n <= |chunks| - 1 && !Decode(d, buf + chunks[0]).bad
    ensures var one := Decode(d, buf + chunks[0]);
            Decode(d, buf + Flatten(chunks[..n + 1]))
              == Prepend(one.frames, Decode(d, one.tail + Flatten(chunks[1..][..n])))
  {
    assert chunks[..n + 1][1..] == chunks[1..][..n] && chunks[..n + 1][0] == chunks[0];
    var later := Flatten(chunks[1..][..n]);
    assert buf + Flatten(chunks[..n + 1]) == (buf + chunks[0]) + later;
    DecodeExtends(d, buf + chunks[0], later);
  }

  // -- round trips ------------------------------------------------------------

  /** An encoding followed by anything has its own frame at the front. */
  lemma EncodedFront<T(!new)>(d: Dialect<T>, f: T, more: Bytes)
    requires Inverts(d) && Fits(d, f)
    ensures Encode(d, f).Some?
    ensures FrontOf(d, Encode(d, f).value + more) == Whole(f, |Encode(d, f).value|)
  {
    var len := |d.payload(f)|;
    LeInverts(len);
    var enc := [d.kind(f)] + LeBytes(len) + d.payload(f);
    assert Encode(d, f) == Some(enc);
    var b := enc + more;
    assert b[0] == d.kind(f) && b[1..5] == LeBytes(len) && b[5..5 + len] == d.payload(f);
  }

  ghost predicate AllFit<T(!new)>(d: Dialect<T>, frames: seq<T>) {
    forall k | 0 <= k < |frames| :: Fits(d, frames[k])
  }

  /** The wire image of a list of frames. */
  ghost function EncodeAll<T(!new)>(d: Dialect<T>, frames: seq<T>): Bytes
    requires AllFit(d, frames)
  {
    if frames == [] then [] else Encode(d, frames[0]).value + EncodeAll(d, frames[1..])
  }

  /** Encoded frames followed by `more` decode to themselves and then `more`. */
  lemma {:induction false} RoundTrip<T(!new)>(d: Dialect<T>, frames: seq<T>, more: Bytes)
    requires Inverts(d) && AllFit(d, frames)
    ensures Decode(d, EncodeAll(d, frames) + more) == Prepend(frames, Decode(d, more))
  {
    if frames == [] {
      assert EncodeAll(d, frames) + more == more;
      PrependTwice([], [], Decode(d, more));
    } else {
      RoundTripOne(d, frames[0], EncodeAll(d, frames[1..]) + more);
      RoundTrip(d, frames[1..], more);
      Assoc(Encode(d, frames[0]).value, EncodeAll(d, frames[1..]), more);
      PrependTwice([frames[0]], frames[1..], Decode(d, more));
      assert [frames[0]] + frames[1..] == frames;
    }
  }

  lemma RoundTripOne<T(!new)>(d: Dialect<T>, f: T, more: Bytes)
    requires Inverts(d) && Fits(d, f)
    ensures Encode(d, f).Some? && Decode(d, Encode(d, f).value + more) == Prepend([f], Decode(d, more))
  {
    EncodedFront(d, f, more);
    var enc := Encode(d, f).value;
    DecodeWhole(d, enc + more, f, |enc|);
    assert (enc + more)[|enc|..] == more;
  }

  /** Any list of frames, encoded, concatenated and fed in any chunking, comes
      back as the same list with nothing left in the buffer. */
  lemma RoundTripChunked<T(!new)>(d: Dialect<T>, frames: seq<T>, chunks: seq<Bytes>)
    requires Inverts(d) && AllFit(d, frames)
    requires Flatten(chunks) == EncodeAll(d, frames)
    ensures Pushes(d, [], chunks) == Run(frames, [], false, |chunks|)
  {
    RoundTrip(d, frames, []);
    assert EncodeAll(d, frames) + [] == EncodeAll(d, frames) == [] + Flatten(chunks);
    assert Decode<T>(d, []) == Decoded([], [], false);
    assert frames + [] == frames;
    ChunkIndependent(d, [], chunks);
  }

  /** Distinct frame lists have distinct images, and no encoding is a proper
      prefix of another. */
  lemma PrefixFree<T(!new)>(d: Dialect<T>, f: T, g: T)
    requires Inverts(d) && Fits(d, f) && Fits(d, g)
    requires Encode(d, f).Some? && Encode(d, g).Some? && Encode(d, f).value <= Encode(d, g).value
    ensures f == g
  {
    var a, b := Encode(d, f).value, Encode(d, g).value;
    EncodedFront(d, f, b[|a|..]);
    EncodedFront(d, g, []);
    assert a + b[|a|..] == b && b + [] == b;
  }

  /** Above the decoders' limit the encoder still produces a frame that both
      decoders refuse: the round trip needs `Fits` exactly. */
  lemma OversizedIsRefused<T(!new)>(d: Dialect<T>, f: T)
    requires Inverts(d) && |d.payload(f)| < U32_LIMIT
    ensures Encode(d, f).Some?
    ensures Decode(d, Encode(d, f).value).frames == [f] <==> Fits(d, f)
  {
    var len := |d.payload(f)|;
    LeInverts(len);
    var enc := [d.kind(f)] + LeBytes(len) + d.payload(f);
    assert Encode(d, f) == Some(enc) && enc[1..5] == LeBytes(len);
    if Fits(d, f) {
      EncodedFront(d, f, []);
      assert enc + [] == enc && enc[|enc|..] == [];
    }
  }

  // -- writing ----------------------------------------------------------------

  /** A byte sink. The script gives each write a fault or none; a write at
      fault puts out some front part of its bytes and fails. A contract that
      holds for every script holds for every pattern of failures. */
  class Sink {
    var written: Bytes
    var faults: seq<Option<nat>>

    method WriteAll(b: Bytes) returns (ok: bool)
      modifies this
      ensures ok <==> GoWell(old(faults), 1)
      ensures ok ==> written == old(written) + b
      ensures old(written) <= written <= old(written) + b
      ensures faults == if old(faults) == [] then [] else old(faults)[1..]
    {
      var fault: Option<nat> := None;
      if faults != [] {
        fault, faults := faults[0], faults[1..];
      }
      if fault.Some? {
        written := written + b[..Min(fault.value, |b|)];
        return false;
      }
      written := written + b;
      return true;
    }
  }

  /** The next `n` writes succeed. */
  ghost predicate GoWell(faults: seq<Option<nat>>, n: nat) {
    forall k | 0 <= k < n && k < |faults| :: faults[k].None?
  }

  /** Large raw payloads are written behind their header, not copied. */
  predicate WritesTwice(d: Dialect<EventFrame>, f: EventFrame) {
    (f.Stdout? || f.Stderr?) && |d.payload(f)| >= PACKED_PAYLOAD_MAX
  }

  /** write_event_frame: a large raw payload goes out as header and payload in
      two writes, everything else as one packed buffer; either way the bytes
      are those of the encoder, and a front part of them when a write fails,
      the second one included. */
  method WriteEventFrame(w: Sink, d: Dialect<EventFrame>, f: EventFrame) returns (ok: bool)
    modifies w
    ensures ok <==> Encode(d, f).Some? && GoWell(old(w.faults), if WritesTwice(d, f) then 2 else 1)
    ensures ok ==> w.written == old(w.written) + Encode(d, f).value
    ensures Encode(d, f).Some? ==> old(w.written) <= w.written <= old(w.written) + Encode(d, f).value
    ensures Encode(d, f).None? ==> w.written == old(w.written)
  {
    if WritesTwice(d, f) {
      var hdr := FrameHeader(d.kind(f), |d.payload(f)|);
      if hdr.None? {
        return false;
      }
      ghost var before := w.written;
      Assoc(before, hdr.value, d.payload(f));
      ok := w.WriteAll(hdr.value);
      if ok {
        ok := w.WriteAll(d.payload(f));
      }
    } else {
      var enc := Encode(d, f);
      if enc.None? {
        return false;
      }
      ok := w.WriteAll(enc.value);
    }
  }
}
