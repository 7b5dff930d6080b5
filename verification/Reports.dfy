/** The wrapper's NUL-terminated reports: collecting one from a pipe that
    splits its bytes anywhere, and what is made of it. */
module Reports {
  import opened Prelude
  import opened Utf8

  const STATE_CAP: nat := 256 * 1024
  const CWD_CAP: nat := 8 * 1024
  const READ_MAX: nat := 4096

  // -- collecting -------------------------------------------------------------

  /** The bytes before the first NUL, or all of them. */
  function BeforeNul(s: Bytes): (r: Bytes)
    ensures r <= s && 0 !in r
    ensures |r| < |s| ==> s[|r|] == 0
    ensures 0 in s <==> |r| < |s|
  {
    if s == [] || s[0] == 0 then [] else [s[0]] + BeforeNul(s[1..])
  }

  /** What a finished buffer yields: nothing to update, or the report. */
  function Accepted(buf: Bytes): (r: Option<Bytes>)
    ensures r == Some(buf) <==> buf != [] && Text(buf)
    ensures r == None <==> buf == [] || !Text(buf)
  {
    WellFormedIsText(buf);
    if buf != [] && WellFormed(buf) then Some(buf) else None
  }

  /** read_pipe over the chunks its reads return until the pipe ends: the cap
      is judged only on chunks without a terminator. */
  function Collect(got: seq<Bytes>, buf: Bytes, cap: nat): Option<Bytes>
    decreases |got|
  {
    if got == [] then Accepted(buf)
    else
      var front := BeforeNul(got[0]);
      if |front| < |got[0]| then Accepted(buf + front)
      else if |buf + got[0]| > cap then None
      else Collect(got[1..], buf + got[0], cap)
  }

  /** Reads of a pipe: non-empty, at most one buffer each. */
  ghost predicate Reads(got: seq<Bytes>) {
    forall k | 0 <= k < |got| :: 0 < |got[k]| <= READ_MAX
  }

  method ReadPipe(got: seq<Bytes>, cap: nat) returns (r: Option<Bytes>, ghost used: nat)
    ensures r == Collect(got, [], cap)
    // an overflowing report is drained to the end of the pipe
    ensures used <= |got|
    ensures used < |got| ==> 0 in got[used]
  {
    var buf: Bytes := [];
    var overflow := false;
    var left := got;
    used := 0;
    while left != []
      invariant used <= |got| && left == got[used..]
      invariant Collect(got, [], cap) == if overflow then None else Collect(left, buf, cap)
      decreases |left|
    {
      var chunk := left[0];
      assert got[used] == chunk && got[used..][1..] == got[used + 1..];
      if !overflow {
        var front := BeforeNul(chunk);
        if |front| < |chunk| {
          buf := buf + front;
          return Accepted(buf), used;
        }
        buf := buf + chunk;
        if |buf| > cap {
          overflow := true;
        }
      }
      left := left[1..];
      used := used + 1;
    }
    r := if overflow then None else Accepted(buf);
  }

  lemma {:induction false} BeforeNulBehind(a: Bytes, b: Bytes)
    requires 0 !in a
    ensures BeforeNul(a + b) == a + BeforeNul(b)
  {
    if a == [] {
      assert a + b == b;
    } else {
      assert (a + b)[1..] == a[1..] + b;
      BeforeNulBehind(a[1..], b);
    }
  }

  lemma BeforeNulInside(a: Bytes, b: Bytes)
    requires 0 in a
    ensures BeforeNul(a + b) == BeforeNul(a)
  {
    var n := |BeforeNul(a)|;
    var front, rest := a[..n], a[n..];
    assert front + rest == a;
    Assoc(front, rest, b);
    BeforeNulBehind(front, rest + b);
    assert (rest + b)[0] == 0;
    assert BeforeNul(rest + b) == [];
    assert front + [] == front;
  }

  /** What one collection comes to, in terms of the whole pipe: a report
      within the cap is accepted or not on its own merits; above the cap it is
      accepted only if a terminator came in the very chunk that crossed it. */
  ghost predicate Meaning(whole: Bytes, cap: nat, r: Option<Bytes>) {
    var report := BeforeNul(whole);
    if |report| <= cap then r == Accepted(report)
    else r.None? || (0 in whole && |report| < cap + READ_MAX && r == Accepted(report))
  }

  /** The terminator comes in this chunk. */
  lemma CollectEnds(buf: Bytes, chunk: Bytes, later: Bytes, cap: nat)
    requires 0 !in buf && |buf| <= cap && |chunk| <= READ_MAX && 0 in chunk
    ensures Meaning(buf + (chunk + later), cap, Accepted(buf + BeforeNul(chunk)))
  {
    BeforeNulBehind(buf, chunk + later);
    BeforeNulInside(chunk, later);
    assert (buf + (chunk + later))[|buf| + |BeforeNul(chunk)|] == 0;
  }

  /** It does not: the chunk joins the report. */
  lemma CollectGrows(buf: Bytes, chunk: Bytes, later: Bytes)
    requires 0 !in buf && 0 !in chunk
    ensures buf + (chunk + later) == buf + chunk + later
    ensures |BeforeNul(buf + (chunk + later))| >= |buf + chunk|
    ensures BeforeNul(chunk) == chunk
  {
    assert buf + (chunk + later) == buf + chunk + later;
    BeforeNulBehind(buf + chunk, later);
  }

  lemma {:induction false} CollectMeans(got: seq<Bytes>, buf: Bytes, cap: nat)
    requires Reads(got) && |buf| <= cap && 0 !in buf
    ensures Meaning(buf + Flatten(got), cap, Collect(got, buf, cap))
    decreases |got|
  {
    if got == [] {
      assert buf + Flatten(got) == buf;
      assert BeforeNul(buf) == buf;
    } else if 0 in got[0] {
      CollectEnds(buf, got[0], Flatten(got[1..]), cap);
    } else {
      CollectGrows(buf, got[0], Flatten(got[1..]));
      if |buf + got[0]| <= cap {
        CollectMeans(got[1..], buf + got[0], cap);
      }
    }
  }

  // -- the shell state: collect, then save ------------------------------------

  /** save_state's rule on the content: a dump within the cap replaces the
      previous state, everything else keeps it. */
  function NewState(previous: Option<Bytes>, dump: Option<Bytes>): Option<Bytes> {
    if dump.Some? && |dump.value| <= STATE_CAP then dump else previous
  }

  /** Collecting and saving together do not depend on how the pipe split the
      dump: the new state is the bytes before the first NUL (or the end) when
      they are non-empty, the encoding of a text and within the cap, and the previous
      state otherwise. */
  lemma StateIndependentOfSplit(got: seq<Bytes>, previous: Option<Bytes>)
    requires Reads(got)
    ensures var dump := BeforeNul(Flatten(got));
            NewState(previous, Collect(got, [], STATE_CAP))
              == if dump != [] && Text(dump) && |dump| <= STATE_CAP then Some(dump) else previous
  {
    CollectMeans(got, [], STATE_CAP);
    assert [] + Flatten(got) == Flatten(got);
  }

  // -- the cwd: collect only --------------------------------------------------

  ghost predicate SplitOf(got: seq<Bytes>, whole: Bytes) {
    Reads(got) && Flatten(got) == whole
  }

  /** The cwd report has no second check behind the collection, so for a valid
      report that overshoots the cap by less than one read buffer the split
      decides; exactly there. */
  lemma SplitMattersExactly(whole: Bytes, cap: nat)
    ensures (exists a, b :: SplitOf(a, whole) && SplitOf(b, whole) && Collect(a, [], cap) != Collect(b, [], cap))
        <==> (0 in whole && cap < |BeforeNul(whole)| < cap + READ_MAX && Text(BeforeNul(whole)))
  {
    var report := BeforeNul(whole);
    if 0 in whole && cap < |report| < cap + READ_MAX && Text(report) {
      var a, b := Late(whole, cap), Singles(whole);
      SinglesSplit(whole);
      LateSplits(whole, cap);
      LateAccepts(whole, cap);
      SinglesReject(whole, cap);
    }
    forall a, b | SplitOf(a, whole) && SplitOf(b, whole) && Collect(a, [], cap) != Collect(b, [], cap)
      ensures 0 in whole && cap < |report| < cap + READ_MAX && Text(report)
    {
      CollectMeans(a, [], cap);
      CollectMeans(b, [], cap);
      assert [] + whole == whole;
    }
  }

  /** One byte per read. */
  function Singles(s: Bytes): seq<Bytes> {
    if s == [] then [] else [[s[0]]] + Singles(s[1..])
  }

  /** Single bytes up to the cap, then everything to the terminator at once. */
  function Late(whole: Bytes, cap: nat): seq<Bytes>
    requires cap < |BeforeNul(whole)| < |whole|
  {
    var n := |BeforeNul(whole)| + 1;
    Singles(whole[..cap]) + [whole[cap..n]] + Singles(whole[n..])
  }

  lemma {:induction false} SinglesSplit(s: Bytes)
    ensures SplitOf(Singles(s), s)
  {
    if s != [] {
      SinglesSplit(s[1..]);
      assert [s[0]] + s[1..] == s;
      assert ([[s[0]]] + Singles(s[1..]))[1..] == Singles(s[1..]);
    }
  }

  /** Single bytes without a NUL pile up in the buffer while the cap allows. */
  lemma {:induction false} SinglesPile(s: Bytes, more: seq<Bytes>, buf: Bytes, cap: nat)
    requires 0 !in s && |buf| + |s| <= cap
    ensures Collect(Singles(s) + more, buf, cap) == Collect(more, buf + s, cap)
    decreases |s|
  {
    if s == [] {
      assert Singles(s) + more == more && buf + s == buf;
    } else {
      var all := Singles(s) + more;
      assert all[0] == [s[0]] && all[1..] == Singles(s[1..]) + more;
      assert BeforeNul([s[0]]) == [s[0]] by { BeforeNulBehind([s[0]], []); assert [s[0]] + [] == [s[0]]; }
      SinglesPile(s[1..], more, buf + [s[0]], cap);
      assert buf + [s[0]] + s[1..] == buf + s;
    }
  }

  lemma SinglesReject(whole: Bytes, cap: nat)
    requires cap < |BeforeNul(whole)|
    ensures Collect(Singles(whole), [], cap) == None
  {
    SinglesConcat(whole[..cap], whole[cap..]);
    assert whole == whole[..cap] + whole[cap..];
    assert whole[cap] == BeforeNul(whole)[cap] && whole[..cap] == BeforeNul(whole)[..cap];
    SinglesPile(whole[..cap], Singles(whole[cap..]), [], cap);
    assert [] + whole[..cap] == whole[..cap];
    var next := [whole[cap]];
    assert BeforeNul(next) == next by { BeforeNulBehind(next, []); assert next + [] == next; }
  }

  lemma {:induction false} SinglesConcat(a: Bytes, b: Bytes)
    ensures Singles(a + b) == Singles(a) + Singles(b)
  {
    if a == [] {
      assert a + b == b;
    } else {
      assert (a + b)[1..] == a[1..] + b;
      SinglesConcat(a[1..], b);
    }
  }

  lemma UpToTerminator(whole: Bytes, report: Bytes, cap: nat)
    requires report <= whole && cap < |report| < |whole| && whole[|report|] == 0
    ensures whole[cap..|report| + 1] == report[cap..] + [0]
  {
    var a, b := whole[cap..|report| + 1], report[cap..] + [0];
    assert |a| == |b|;
    forall k | 0 <= k < |a| ensures a[k] == b[k] {
      assert a[k] == whole[cap + k];
      assert k < |a| - 1 ==> b[k] == report[cap + k] == whole[cap + k];
    }
  }

  /** The chunk of the late split that crosses the cap. */
  lemma LateTail(whole: Bytes, cap: nat)
    requires cap < |BeforeNul(whole)| < |whole|
    ensures var n := |BeforeNul(whole)| + 1;
            BeforeNul(whole[cap..n]) == BeforeNul(whole)[cap..] && 0 in whole[cap..n]
  {
    var report := BeforeNul(whole);
    UpToTerminator(whole, report, cap);
    forall k | 0 <= k < |report[cap..]| ensures report[cap..][k] != 0 {
      assert report[cap..][k] in report;
    }
    BeforeNulExact(report[cap..]);
  }

  lemma BeforeNulExact(r: Bytes)
    requires 0 !in r
    ensures BeforeNul(r + [0]) == r && 0 in r + [0]
  {
    assert BeforeNul([0]) == [];
    BeforeNulBehind(r, [0]);
    assert r + [] == r && (r + [0])[|r|] == 0;
  }

  lemma SplitsJoin(a: seq<Bytes>, wholeA: Bytes, b: seq<Bytes>, wholeB: Bytes)
    requires SplitOf(a, wholeA) && SplitOf(b, wholeB)
    ensures SplitOf(a + b, wholeA + wholeB)
  {
    FlattenConcat(a, b);
  }

  lemma LateSplits(whole: Bytes, cap: nat)
    requires cap < |BeforeNul(whole)| < cap + READ_MAX && 0 in whole
    ensures SplitOf(Late(whole, cap), whole)
  {
    var n := |BeforeNul(whole)| + 1;
    var front, chunk, rest := whole[..cap], whole[cap..n], whole[n..];
    SinglesSplit(front);
    SinglesSplit(rest);
    FlattenOne(chunk);
    SplitsJoin(Singles(front), front, [chunk], chunk);
    SplitsJoin(Singles(front) + [chunk], front + chunk, Singles(rest), rest);
    assert front + chunk == whole[..n];
    assert whole[..n] + rest == whole;
  }

  lemma LateShape(whole: Bytes, cap: nat)
    requires cap < |BeforeNul(whole)| < |whole|
    ensures var report, n := BeforeNul(whole), |BeforeNul(whole)| + 1;
            Late(whole, cap) == Singles(report[..cap]) + ([whole[cap..n]] + Singles(whole[n..]))
  {
    var n := |BeforeNul(whole)| + 1;
    assert whole[..cap] == BeforeNul(whole)[..cap];
    Assoc(Singles(whole[..cap]), [whole[cap..n]], Singles(whole[n..]));
  }

  lemma LateAccepts(whole: Bytes, cap: nat)
    requires cap < |BeforeNul(whole)| < |whole|
    ensures Collect(Late(whole, cap), [], cap) == Accepted(BeforeNul(whole))
  {
    var report := BeforeNul(whole);
    var n := |report| + 1;
    LateShape(whole, cap);
    LateTail(whole, cap);
    assert report == report[..cap] + report[cap..];
    PileThenEnd(Late(whole, cap), report[..cap], whole[cap..n], Singles(whole[n..]), cap, report);
  }

  lemma PileThenEnd(got: seq<Bytes>, front: Bytes, chunk: Bytes, rest: seq<Bytes>, cap: nat, report: Bytes)
    requires got == Singles(front) + ([chunk] + rest) && report == front + BeforeNul(chunk)
    requires 0 !in front && |front| <= cap && 0 in chunk
    ensures Collect(got, [], cap) == Accepted(report)
  {
    SinglesPile(front, [chunk] + rest, [], cap);
    assert [] + front == front;
    ChunkEnds(chunk, rest, front, cap);
  }

  lemma ChunkEnds(chunk: Bytes, rest: seq<Bytes>, buf: Bytes, cap: nat)
    requires 0 in chunk
    ensures Collect([chunk] + rest, buf, cap) == Accepted(buf + BeforeNul(chunk))
  {
  }
}
