/** The pulling decoder: one frame at a time from a stream that returns short
    reads, and its agreement with the incremental decoder. */
module StreamReader {
  import opened Prelude
  import opened FrameCodec

  /** A byte stream. A read returns some non-empty front part of what is left,
      of the reader's choosing at most `max` long, and nothing only at the end;
      it may also fail. The script decides, so a contract that holds for every
      script holds for every pattern of short reads and failures. */
  class ByteStream {
    var rest: Bytes
    var script: seq<int>

    constructor (all: Bytes, script: seq<int>)
      ensures rest == all && this.script == script
    {
      rest, this.script := all, script;
    }

    /** No read will fail. */
    ghost predicate Reliable()
      reads this`script
    {
      forall k | 0 <= k < |script| :: script[k] >= 0
    }

    /** `n` bytes were read, or the read failed. */
    method Read(max: nat) returns (got: Option<Bytes>)
      requires max > 0
      modifies this
      ensures old(Reliable()) ==> Reliable() && got.Some?
      ensures got.Some? ==> |got.value| <= max && got.value + rest == old(rest)
      ensures got.Some? ==> (got.value == [] <==> old(rest) == [])
      ensures got.None? ==> rest == old(rest)
    {
      var wish := 1;
      if script != [] {
        wish, script := script[0], script[1..];
      }
      if wish < 0 {
        return None;
      }
      var n := Min(Min(max, if wish == 0 then 1 else wish), |rest|);
      got := Some(rest[..n]);
      rest := rest[n..];
    }
  }

  /** What reading one frame can come to. `Protocol` is every malformed or
      truncated frame; `Io` is a failed read. */
  datatype ReadResult<+T> = Frame(frame: T) | CleanEof | Protocol | Io

  /** What one frame read means on a stream holding exactly `b`: the kind is
      judged as soon as the header is whole, before the length and before the
      payload has arrived. */
  function ReadOne<T>(d: Dialect<T>, b: Bytes): (r: ReadResult<T>)
    ensures !r.Io?
    ensures r.Frame? ==> |b| >= 5 && |b| >= FrameSize(b)
  {
    if b == [] then CleanEof
    else if |b| < 5 || !d.known(b[0]) then Protocol
    else
      var len := LeValue(b[1..5]);
      if len > MAX_PAYLOAD || |b| < 5 + len then Protocol
      else match d.decode(b[0], b[5..5 + len]) case Some(f) => Frame(f) case None => Protocol
  }

  /** Header and payload of the frame a stream starts with. */
  function FrameSize(b: Bytes): nat
    requires |b| >= 5
  {
    5 + LeValue(b[1..5])
  }

  /** read_frame_as: a byte-counted header read and a payload read, both over
      short reads. */
  method ReadFrameAs<T>(d: Dialect<T>, r: ByteStream) returns (res: ReadResult<T>)
    modifies r
    ensures old(r.Reliable()) ==> r.Reliable() && !res.Io?
    ensures res.Io? || res == ReadOne(d, old(r.rest))
    ensures res.Frame? ==> r.rest == old(r.rest)[FrameSize(old(r.rest))..]
  {
    ghost var all := r.rest;
    var hdr: Bytes := [];
    while |hdr| < 5
      invariant |hdr| <= 5 && hdr + r.rest == all
      invariant old(r.Reliable()) ==> r.Reliable()
      decreases 5 - |hdr|
    {
      var got := r.Read(5 - |hdr|);
      if got.None? {
        return Io;
      }
      if got.value == [] {
        if hdr == [] {
          return CleanEof;
        }
        return Protocol;
      }
      Assoc(hdr, got.value, r.rest);
      hdr := hdr + got.value;
    }
    ghost var body := r.rest;
    HeaderOf(all, hdr, body);
    if !d.known(hdr[0]) {
      return Protocol;
    }
    var len := LeValue(hdr[1..5]);
    if len > MAX_PAYLOAD {
      return Protocol;
    }
    var payload: Bytes := [];
    while |payload| < len
      invariant |payload| <= len && payload + r.rest == body
      invariant old(r.Reliable()) ==> r.Reliable()
      decreases len - |payload|
    {
      var got := r.Read(len - |payload|);
      if got.None? {
        return Io;
      }
      if got.value == [] {
        return Protocol;
      }
      Assoc(payload, got.value, r.rest);
      payload := payload + got.value;
    }
    Prefix(payload, r.rest, len);
    var frame := d.decode(hdr[0], payload);
    return if frame.Some? then Frame(frame.value) else Protocol;
  }

  /** A stream that starts with a whole header, seen as header and body. */
  lemma HeaderOf(all: Bytes, hdr: Bytes, body: Bytes)
    requires |hdr| == 5 && hdr + body == all
    ensures all[0] == hdr[0] && all[1..5] == hdr[1..5] && |all| == 5 + |body|
    ensures forall len: nat | len <= |body| :: all[5..5 + len] == body[..len] && all[5 + len..] == body[len..]
  {
  }

  // -- reading until the stream ends ------------------------------------------

  datatype Drained<+T> = Drained(frames: seq<T>, end: ReadResult<T>)

  /** Every frame the reader delivers from `b`, and how it stops. */
  function ReadAll<T>(d: Dialect<T>, b: Bytes): (r: Drained<T>)
    ensures !r.end.Frame? && !r.end.Io?
    decreases |b|
  {
    var one := ReadOne(d, b);
    if one.Frame?
    then var rest := ReadAll(d, b[FrameSize(b)..]); Drained([one.frame] + rest.frames, rest.end)
    else Drained([], one)
  }

  /** The reading loop every receiver runs: frames until EOF or an error. */
  method ReadUntilEnd<T>(d: Dialect<T>, r: ByteStream) returns (frames: seq<T>, end: ReadResult<T>)
    modifies r
    ensures !end.Frame? && (old(r.Reliable()) ==> !end.Io?)
    ensures end.Io? ==> frames <= ReadAll(d, old(r.rest)).frames
    ensures !end.Io? ==> ReadAll(d, old(r.rest)) == Drained(frames, end)
  {
    ghost var all := r.rest;
    frames := [];
    while true
      invariant ReadAll(d, all).frames == frames + ReadAll(d, r.rest).frames
      invariant ReadAll(d, all).end == ReadAll(d, r.rest).end
      invariant old(r.Reliable()) ==> r.Reliable()
      decreases |r.rest|
    {
      ghost var was := r.rest;
      var one := ReadFrameAs(d, r);
      if !one.Frame? {
        return frames, one;
      }
      ghost var later := ReadAll(d, r.rest).frames;
      assert ReadAll(d, was).frames == [one.frame] + later;
      Assoc(frames, [one.frame], later);
      frames := frames + [one.frame];
    }
  }

  /** The two decoders agree at the front of any stream, but for one thing: an
      unknown kind behind a whole header stops the reader at once, while the
      incremental decoder waits for the payload first. */
  lemma FrontsAgree<T>(d: Dialect<T>, b: Bytes)
    ensures ReadOne(d, b).Frame? <==> FrontOf(d, b).Whole?
    ensures FrontOf(d, b).Whole? ==> ReadOne(d, b) == Frame(FrontOf(d, b).frame) && FrameSize(b) == FrontOf(d, b).size
    ensures ReadOne(d, b).CleanEof? <==> b == []
  {
  }

  /** Same frames up to the first bad one, and a clean end exactly when the
      stream ends on a frame boundary: every other end, bad or truncated, is a
      protocol error. */
  lemma {:induction false} ReaderAgreesWithDecoder<T>(d: Dialect<T>, b: Bytes)
    ensures ReadAll(d, b).frames == Decode(d, b).frames
    ensures ReadAll(d, b).end.CleanEof? <==> !Decode(d, b).bad && Decode(d, b).tail == []
    decreases |b|
  {
    FrontsAgree(d, b);
    match FrontOf(d, b) {
      case Whole(f, n) =>
        DecodeWhole(d, b, f, n);
        ReaderAgreesWithDecoder(d, b[n..]);
      case NeedMore =>
      case Bad =>
    }
  }

  /** What the reader makes of a prefix of the encoded list. */
  ghost predicate CutReads<T(!new)>(d: Dialect<T>, frames: seq<T>, cut: nat, part: Bytes)
    requires AllFit(d, frames)
  {
    var r := ReadAll(d, part);
    r.frames <= frames && (r.end.CleanEof? <==> AtBoundary(d, frames, cut))
  }

  lemma CutInside<T(!new)>(d: Dialect<T>, frames: seq<T>, cut: nat, part: Bytes)
    requires Inverts(d) && AllFit(d, frames) && frames != []
    requires part < Encode(d, frames[0]).value && |part| == cut
    ensures CutReads(d, frames, cut, part)
  {
    CutInsideFirst(d, frames[0], part);
    NoEarlyBoundary(d, frames, cut);
  }

  lemma CutBeyond<T(!new)>(d: Dialect<T>, frames: seq<T>, cut: nat, more: Bytes)
    requires Inverts(d) && AllFit(d, frames) && frames != [] && cut >= |Encode(d, frames[0]).value|
    requires CutReads(d, frames[1..], cut - |Encode(d, frames[0]).value|, more)
    ensures CutReads(d, frames, cut, Encode(d, frames[0]).value + more)
  {
    ReadPastFirst(d, frames[0], more);
    BoundaryShift(d, frames, cut);
    assert [frames[0]] + frames[1..] == frames;
  }

  lemma CutBefore<T(!new)>(d: Dialect<T>, frames: seq<T>, first: Bytes, others: Bytes, cut: nat)
    requires Inverts(d) && AllFit(d, frames) && frames != [] && first == Encode(d, frames[0]).value
    requires cut < |first|
    ensures CutReads(d, frames, cut, (first + others)[..cut])
  {
    assert (first + others)[..cut] == first[..cut];
    CutInside(d, frames, cut, first[..cut]);
  }

  lemma CutNone<T(!new)>(d: Dialect<T>)
    ensures CutReads(d, [], 0, [])
  {
    assert Boundary(d, [], 0, 0);
  }

  lemma CutBehind<T(!new)>(d: Dialect<T>, frames: seq<T>, first: Bytes, others: Bytes, cut: nat)
    requires Inverts(d) && AllFit(d, frames) && frames != [] && first == Encode(d, frames[0]).value
    requires |first| <= cut <= |first + others|
    requires CutReads(d, frames[1..], cut - |first|, others[..cut - |first|])
    ensures CutReads(d, frames, cut, (first + others)[..cut])
  {
    CutBeyond(d, frames, cut, others[..cut - |first|]);
    assert (first + others)[..cut] == first + others[..cut - |first|];
  }

  lemma {:induction false} CutAnywhere<T(!new)>(d: Dialect<T>, frames: seq<T>, all: Bytes, cut: nat)
    requires Inverts(d) && AllFit(d, frames) && all == EncodeAll(d, frames) && cut <= |all|
    ensures CutReads(d, frames, cut, all[..cut])
    decreases |frames|
  {
    if frames == [] {
      CutNone(d);
      assert all[..cut] == [];
    } else {
      var first, others := Encode(d, frames[0]).value, EncodeAll(d, frames[1..]);
      if cut < |first| {
        CutBefore(d, frames, first, others, cut);
      } else {
        CutAnywhere(d, frames[1..], others, cut - |first|);
        CutBehind(d, frames, first, others, cut);
      }
    }
  }

  /** The bytes of a frame list, cut anywhere: the reader delivers the frames
      that are whole and reports a clean end exactly at a frame boundary. */
  lemma TruncationPoint<T(!new)>(d: Dialect<T>, frames: seq<T>, cut: nat)
    requires Inverts(d) && AllFit(d, frames) && cut <= |EncodeAll(d, frames)|
    ensures ReadAll(d, EncodeAll(d, frames)[..cut]).frames <= frames
    ensures ReadAll(d, EncodeAll(d, frames)[..cut]).end.CleanEof?
        <==> AtBoundary(d, frames, cut)
  {
    CutAnywhere(d, frames, EncodeAll(d, frames), cut);
  }

  lemma ReadPastFirst<T(!new)>(d: Dialect<T>, f: T, more: Bytes)
    requires Inverts(d) && Fits(d, f)
    ensures ReadAll(d, Encode(d, f).value + more)
         == Drained([f] + ReadAll(d, more).frames, ReadAll(d, more).end)
  {
    var first := Encode(d, f).value;
    EncodedFront(d, f, more);
    FrontsAgree(d, first + more);
    assert (first + more)[|first|..] == more;
  }

  /** The first `k` frames take exactly `cut` bytes. */
  ghost predicate Boundary<T(!new)>(d: Dialect<T>, frames: seq<T>, k: nat, cut: int)
    requires k <= |frames| && AllFit(d, frames)
  {
    |EncodeAll(d, frames[..k])| == cut
  }

  ghost predicate AtBoundary<T(!new)>(d: Dialect<T>, frames: seq<T>, cut: int)
    requires AllFit(d, frames)
  {
    exists k | 0 <= k <= |frames| :: Boundary(d, frames, k, cut)
  }

  lemma BoundaryStep<T(!new)>(d: Dialect<T>, frames: seq<T>, k: nat, cut: int)
    requires frames != [] && AllFit(d, frames) && 0 < k <= |frames|
    ensures Boundary(d, frames, k, cut) <==> Boundary(d, frames[1..], k - 1, cut - |Encode(d, frames[0]).value|)
  {
    assert frames[..k][1..] == frames[1..][..k - 1] && frames[..k][0] == frames[0];
  }

  lemma BoundaryShift<T(!new)>(d: Dialect<T>, frames: seq<T>, cut: nat)
    requires frames != [] && AllFit(d, frames) && cut >= |Encode(d, frames[0]).value|
    ensures AtBoundary(d, frames, cut) <==> AtBoundary(d, frames[1..], cut - |Encode(d, frames[0]).value|)
  {
    var shifted := cut - |Encode(d, frames[0]).value|;
    if AtBoundary(d, frames, cut) {
      var k :| 0 <= k <= |frames| && Boundary(d, frames, k, cut);
      BoundaryStep(d, frames, k, cut);
    }
    if AtBoundary(d, frames[1..], shifted) {
      var k :| 0 <= k <= |frames[1..]| && Boundary(d, frames[1..], k, shifted);
      BoundaryStep(d, frames, k + 1, cut);
    }
  }

  lemma NoEarlyBoundary<T(!new)>(d: Dialect<T>, frames: seq<T>, cut: nat)
    requires frames != [] && AllFit(d, frames) && cut < |Encode(d, frames[0]).value|
    ensures AtBoundary(d, frames, cut) <==> cut == 0
  {
    assert Boundary(d, frames, 0, 0);
    forall k | 0 < k <= |frames| ensures !Boundary(d, frames, k, cut) {
      BoundaryStep(d, frames, k, cut);
    }
  }

  /** A proper front part of one encoding holds no whole frame. */
  lemma CutInsideFirst<T(!new)>(d: Dialect<T>, f: T, part: Bytes)
    requires Inverts(d) && Fits(d, f) && part < Encode(d, f).value
    ensures ReadAll(d, part).frames == [] && (ReadAll(d, part).end.CleanEof? <==> part == [])
  {
    var enc := Encode(d, f).value;
    LeInverts(|d.payload(f)|);
    if |part| >= 5 {
      assert part[1..5] == enc[1..5] == LeBytes(|d.payload(f)|);
    }
    assert FrontOf(d, part).NeedMore?;
    FrontsAgree(d, part);
  }
}
