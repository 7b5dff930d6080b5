/** Host key verification against known_hosts files: the one-pass scan of one
    file, the hashed-entry fallback, and the decision over the list of files. */
module KnownHosts {
  import opened Prelude
  import opened Glob

  datatype PublicKey = PublicKey(algorithm: string, material: string)

  datatype Marker = Revoked | CertAuthority

  datatype HostPatterns = Patterns(list: seq<string>) | HashedName

  datatype Entry = Entry(marker: Option<Marker>, hosts: HostPatterns, key: PublicKey)

  /** The line parser lives in a library; it is a parameter here. */
  type Parser = string -> Option<Entry>

  /** What is being looked up. `cert` is set for a presented certificate. */
  datatype Query = Query(parse: Parser, lookup: string, key: PublicKey, cert: bool)

  datatype Detail = Line(no: nat) | Other(text: string)

  datatype Check = Matched | Absent | Changed(at: nat) | RevokedAt(no: nat) | Malformed(detail: Detail)

  // -- text helpers -----------------------------------------------------------

  /** Unicode White_Space. */
  predicate IsSpace(c: char) {
    var n := c as int;
    9 <= n <= 13 || n == 32 || n == 0x85 || n == 0xA0 || n == 0x1680 || 0x2000 <= n <= 0x200A
    || n == 0x2028 || n == 0x2029 || n == 0x202F || n == 0x205F || n == 0x3000
  }

  function TrimStart(s: string): string {
    if s != "" && IsSpace(s[0]) then TrimStart(s[1..]) else s
  }

  function TrimEnd(s: string): string {
    if s != "" && IsSpace(s[|s| - 1]) then TrimEnd(s[..|s| - 1]) else s
  }

  function Trim(s: string): string {
    TrimEnd(TrimStart(s))
  }

  /** The leading field of a line, up to the first space. */
  function Field(s: string): (f: string)
    ensures |f| <= |s|
  {
    if s == "" || IsSpace(s[0]) then "" else [s[0]] + Field(s[1..])
  }

  function Fields(s: string): seq<string>
    decreases |s|
  {
    if s == "" then []
    else if IsSpace(s[0]) then Fields(s[1..])
    else [Field(s)] + Fields(s[|Field(s)|..])
  }

  function SplitComma(s: string): seq<string> {
    if s == "" then [""]
    else if s[0] == ',' then [""] + SplitComma(s[1..])
    else var rest := SplitComma(s[1..]);
         if rest == [] then [[s[0]]] else [[s[0]] + rest[0]] + rest[1..]
  }

  predicate AllSpace(s: string) {
    forall k | 0 <= k < |s| :: IsSpace(s[k])
  }

  predicate NoSpace(s: string) {
    forall k | 0 <= k < |s| :: !IsSpace(s[k])
  }

  /** White space at both ends goes, and nothing else. */
  lemma {:induction false} TrimMeans(lead: string, body: string, trail: string)
    requires AllSpace(lead) && AllSpace(trail)
    requires body == "" || (!IsSpace(body[0]) && !IsSpace(body[|body| - 1]))
    ensures Trim(lead + body + trail) == body
    decreases |lead| + |trail|
  {
    var s := lead + body + trail;
    if lead != "" {
      assert s[0] == lead[0] && s[1..] == lead[1..] + body + trail;
      TrimMeans(lead[1..], body, trail);
    } else if body == "" {
      assert s == trail;
      AllTrimmed(trail);
    } else {
      assert s == body + trail && s[0] == body[0];
      EndTrimmed(body, trail);
    }
  }

  lemma {:induction false} AllTrimmed(s: string)
    requires AllSpace(s)
    ensures TrimStart(s) == "" && Trim(s) == ""
  {
    if s != "" {
      AllTrimmed(s[1..]);
    }
  }

  lemma {:induction false} EndTrimmed(body: string, trail: string)
    requires body != "" && !IsSpace(body[|body| - 1]) && AllSpace(trail)
    ensures TrimEnd(body + trail) == body
    decreases |trail|
  {
    var s := body + trail;
    if trail == "" {
      assert s == body;
    } else {
      assert s[|s| - 1] == trail[|trail| - 1] && s[..|s| - 1] == body + trail[..|trail| - 1];
      EndTrimmed(body, trail[..|trail| - 1]);
    }
  }

  /** The first field: white space, characters that are none, and the end or
      white space behind them. */
  lemma {:induction false} FirstField(lead: string, field: string, rest: string)
    requires AllSpace(lead) && NoSpace(field) && field != "" && (rest == "" || IsSpace(rest[0]))
    ensures Fields(lead + field + rest) == [field] + Fields(rest)
    decreases |lead|
  {
    var s := lead + field + rest;
    if lead != "" {
      assert s[0] == lead[0] && s[1..] == lead[1..] + field + rest;
      FirstField(lead[1..], field, rest);
    } else {
      assert s == field + rest && s[0] == field[0];
      FieldEnds(field, rest);
      assert s[|field|..] == rest;
    }
  }

  lemma {:induction false} FieldEnds(field: string, rest: string)
    requires NoSpace(field) && (rest == "" || IsSpace(rest[0]))
    ensures Field(field + rest) == field
  {
    if field == "" {
      assert field + rest == rest;
    } else {
      FrontOfConcat(field, rest);
      FieldEnds(field[1..], rest);
    }
  }

  lemma {:induction false} NoFields(s: string)
    requires AllSpace(s)
    ensures Fields(s) == []
  {
    if s != "" {
      NoFields(s[1..]);
    }
  }

  /** The host field of a line: its first field, or the one behind a marker. */
  lemma HostFieldMeans(mark: string, gap: string, field: string, rest: string)
    requires NoSpace(field) && field != "" && (rest == "" || IsSpace(rest[0]))
    ensures field[0] != '@' ==> HostField(field + rest) == Some(field)
    ensures NoSpace(mark) && "@" <= mark && AllSpace(gap) && gap != "" ==>
              HostField(mark + (gap + field + rest)) == Some(field)
    ensures NoSpace(mark) && "@" <= mark && AllSpace(gap) ==> HostField(mark + gap) == None
  {
    FirstField("", field, rest);
    assert "" + field + rest == field + rest;
    if NoSpace(mark) && "@" <= mark && AllSpace(gap) {
      FirstField("", mark, gap);
      NoFields(gap);
      assert "" + mark + gap == mark + gap && [mark] + [] == [mark];
      if gap != "" {
        FirstField("", mark, gap + field + rest);
        FirstField(gap, field, rest);
        assert "" + mark + (gap + field + rest) == mark + (gap + field + rest);
      }
    }
  }

  function JoinComma(list: seq<string>): string {
    if list == [] then "" else if |list| == 1 then list[0] else list[0] + "," + JoinComma(list[1..])
  }

  predicate NoComma(list: seq<string>) {
    forall k | 0 <= k < |list| :: ',' !in list[k]
  }

  /** Splitting undoes joining with commas. */
  lemma {:induction false} SplitJoins(list: seq<string>)
    requires list != [] && NoComma(list)
    ensures SplitComma(JoinComma(list)) == list
    decreases |list|
  {
    if |list| == 1 {
      assert list[0] + "" == list[0];
      SplitFirst(list[0], "");
      assert list == [list[0]];
    } else {
      SplitJoins(list[1..]);
      SplitFirst(list[0], "," + JoinComma(list[1..]));
      Assoc(list[0], ",", JoinComma(list[1..]));
      assert ("," + JoinComma(list[1..]))[1..] == JoinComma(list[1..]);
    }
  }

  lemma {:induction false} SplitFirst(first: string, rest: string)
    requires ',' !in first && (rest == "" || rest[0] == ',')
    ensures SplitComma(first + rest) == if rest == "" then [first] else [first] + SplitComma(rest[1..])
  {
    if first == "" {
      assert first + rest == rest;
    } else {
      FrontOfConcat(first, rest);
      SplitFirst(first[1..], rest);
      assert [first[0]] + first[1..] == first;
    }
  }

  /** The field that names the hosts: the second one behind an `@` marker. */
  function HostField(line: string): Option<string> {
    var fields := Fields(line);
    var first := if fields == [] then "" else fields[0];
    if "@" <= first then (if |fields| > 1 then Some(fields[1]) else None) else Some(first)
  }

  // -- one file ---------------------------------------------------------------

  /** A line the parser rejects that still names our host. */
  ghost predicate RawTargets(line: string, lookup: string) {
    var h := HostField(line);
    h.Some? && !("|1|" <= h.value) && ListMatches(lookup, SplitComma(h.value))
  }

  /** A line as written, with or without a marker: its host field is a list of
      patterns for our host, and not the hash of a name. */
  lemma RawTargetsMeans(mark: string, gap: string, list: seq<string>, rest: string, lookup: string)
    requires list != [] && NoComma(list) && NoSpace(JoinComma(list)) && JoinComma(list) != ""
    requires rest == "" || IsSpace(rest[0])
    ensures var field, targets := JoinComma(list), !("|1|" <= JoinComma(list)) && ListMatches(lookup, list);
            && (field[0] != '@' ==> RawTargets(field + rest, lookup) == targets)
            && (NoSpace(mark) && "@" <= mark && AllSpace(gap) && gap != "" ==>
                  RawTargets(mark + (gap + field + rest), lookup) == targets)
  {
    HostFieldMeans(mark, gap, JoinComma(list), rest);
    SplitJoins(list);
  }

  method RawEntryTargetsHost(line: string, lookup: string) returns (r: bool)
    ensures r <==> RawTargets(line, lookup)
  {
    var h := HostField(line);
    if h.None? || "|1|" <= h.value {
      return false;
    }
    r := MatchPatternList(lookup, SplitComma(h.value));
  }

  /** What one line says about the key, taken on its own. */
  datatype LineKind =
    | Silent        // blank, comment, other host, CA, hashed, other algorithm
    | Revoking      // @revoked for exactly this key
    | Unreadable    // rejected by the parser, names our host
    | Holding       // plain entry for our host with exactly this key
    | Rival         // plain entry for our host, same algorithm, other key

  ghost function Kind(raw: string, q: Query): LineKind {
    var line := Trim(raw);
    if line == "" || line[0] == '#' then Silent
    else match q.parse(line)
      case None => if RawTargets(line, q.lookup) then Unreadable else Silent
      case Some(entry) =>
        if entry.marker == Some(Revoked) then (if entry.key == q.key then Revoking else Silent)
        else if entry.marker == Some(CertAuthority) || q.cert then Silent
        else PlainKind(entry, q)
  }

  /** A plain entry, presented with a key. */
  ghost function PlainKind(entry: Entry, q: Query): LineKind {
    if entry.hosts.HashedName? || !ListMatches(q.lookup, entry.hosts.list) then Silent
    else if entry.key == q.key then Holding
    else if entry.key.algorithm == q.key.algorithm then Rival
    else Silent
  }

  ghost function Kinds(lines: seq<string>, q: Query): (r: seq<LineKind>)
    ensures |r| == |lines| && forall k | 0 <= k < |lines| :: r[k] == Kind(lines[k], q)
  {
    seq(|lines|, k requires 0 <= k < |lines| => Kind(lines[k], q))
  }

  /** A line that settles the file where it stands: a revocation, or an
      unreadable line for our host with no match before it. */
  ghost predicate Decisive(kinds: seq<LineKind>, d: nat) {
    d < |kinds| && (kinds[d].Revoking? || (kinds[d].Unreadable? && !HoldsBefore(kinds, d)))
  }

  ghost predicate HoldsBefore(kinds: seq<LineKind>, n: nat)
    requires n <= |kinds|
  {
    exists m | 0 <= m < n :: kinds[m].Holding?
  }

  ghost predicate FirstDecisive(kinds: seq<LineKind>, d: nat) {
    Decisive(kinds, d) && forall m: nat | m < d :: !Decisive(kinds, m)
  }

  ghost predicate FirstRival(kinds: seq<LineKind>, d: nat) {
    d < |kinds| && kinds[d].Rival? && forall m | 0 <= m < d :: !kinds[m].Rival?
  }

  /** The verdict a file's lines stand for, as a precedence of conditions on
      the whole file; `v` satisfies it for exactly one `v` (VerdictUnique). */
  ghost predicate Verdict(kinds: seq<LineKind>, v: Check) {
    match v
    case RevokedAt(n) => n > 0 && FirstDecisive(kinds, n - 1) && kinds[n - 1].Revoking?
    case Malformed(detail) =>
      detail.Line? && detail.no > 0 && FirstDecisive(kinds, detail.no - 1) && kinds[detail.no - 1].Unreadable?
    case Matched => NoneDecisive(kinds) && HoldsBefore(kinds, |kinds|)
    case Changed(n) =>
      NoneDecisive(kinds) && !HoldsBefore(kinds, |kinds|) && n > 0 && FirstRival(kinds, n - 1)
    case Absent =>
      NoneDecisive(kinds) && !HoldsBefore(kinds, |kinds|) && forall m | 0 <= m < |kinds| :: !kinds[m].Rival?
  }

  ghost predicate NoneDecisive(kinds: seq<LineKind>) {
    forall d: nat :: !Decisive(kinds, d)
  }

  lemma VerdictUnique(kinds: seq<LineKind>, v: Check, w: Check)
    requires Verdict(kinds, v) && Verdict(kinds, w)
    ensures v == w
  {
    if (v.RevokedAt? || v.Malformed?) && (w.RevokedAt? || w.Malformed?) {
      var d: nat := if v.RevokedAt? then v.no - 1 else v.detail.no - 1;
      var e: nat := if w.RevokedAt? then w.no - 1 else w.detail.no - 1;
      assert Decisive(kinds, d) && Decisive(kinds, e);
    }
  }

  /** What the scan knows after the first `n` lines: none was decisive, and
      the running verdict is the one those lines alone stand for. */
  ghost predicate Scanned(kinds: seq<LineKind>, n: nat, v: Check)
    requires n <= |kinds|
  {
    && (forall d: nat | d < n :: !Decisive(kinds, d))
    && match v
       case Matched => HoldsBefore(kinds, n)
       case Changed(at) => !HoldsBefore(kinds, n) && 0 < at <= n && FirstRival(kinds, at - 1)
       case Absent => !HoldsBefore(kinds, n) && forall m | 0 <= m < n :: !kinds[m].Rival?
       case _ => false
  }

  lemma ScanStep(kinds: seq<LineKind>, n: nat, v: Check)
    requires n < |kinds| && Scanned(kinds, n, v)
    ensures kinds[n].Silent? ==> Scanned(kinds, n + 1, v)
    ensures kinds[n].Holding? ==> Scanned(kinds, n + 1, Matched)
    ensures kinds[n].Rival? ==> Scanned(kinds, n + 1, if v.Absent? then Changed(n + 1) else v)
    ensures kinds[n].Unreadable? && v.Matched? ==> Scanned(kinds, n + 1, v)
    ensures kinds[n].Unreadable? && !v.Matched? ==> Verdict(kinds, Malformed(Line(n + 1)))
    ensures kinds[n].Revoking? ==> Verdict(kinds, RevokedAt(n + 1))
  {
    assert HoldsBefore(kinds, n + 1) <==> HoldsBefore(kinds, n) || kinds[n].Holding?;
    assert HoldsBefore(kinds, n) ==> v.Matched?;
  }

  lemma ScanEnd(kinds: seq<LineKind>, v: Check)
    requires Scanned(kinds, |kinds|, v)
    ensures Verdict(kinds, v)
  {
  }

  /** The running verdict behind a plain entry on line `no`. */
  method PlainEntry(entry: Entry, q: Query, verdict: Check, no: nat) returns (next: Check)
    ensures next == match PlainKind(entry, q)
                    case Holding => Matched
                    case Rival => if verdict.Absent? then Changed(no) else verdict
                    case _ => verdict
  {
    var matched := false;
    if entry.hosts.Patterns? {
      matched := MatchPatternList(q.lookup, entry.hosts.list);
    }
    if !matched {
      return verdict;
    }
    next := verdict;
    if entry.key == q.key {
      next := Matched;
    } else if entry.key.algorithm == q.key.algorithm && verdict.Absent? {
      next := Changed(no);
    }
  }

  method ScanKnownHosts(lines: seq<string>, q: Query) returns (verdict: Check)
    ensures Verdict(Kinds(lines, q), verdict)
  {
    ghost var kinds := Kinds(lines, q);
    verdict := Absent;
    for idx := 0 to |lines|
      invariant Scanned(kinds, idx, verdict)
    {
      ScanStep(kinds, idx, verdict);
      assert kinds[idx] == Kind(lines[idx], q);
      var line := Trim(lines[idx]);
      if line == "" || line[0] == '#' {
        continue;
      }
      var parsed := q.parse(line);
      if parsed.None? {
        var targets := RawEntryTargetsHost(line, q.lookup);
        if !verdict.Matched? && targets {
          return Malformed(Line(idx + 1));
        }
        continue;
      }
      var entry := parsed.value;
      match entry.marker {
        case Some(Revoked) =>
          if entry.key == q.key {
            return RevokedAt(idx + 1);
          }
        case Some(CertAuthority) =>
        case None =>
          if q.cert {
            continue;
          }
          verdict := PlainEntry(entry, q, verdict, idx + 1);
      }
    }
    ScanEnd(kinds, verdict);
  }

  // -- the verdict, from the lines themselves ----------------------------------

  /** The line, its white space put aside, is neither blank nor a comment. */
  predicate Counts(raw: string) {
    Trim(raw) != "" && Trim(raw)[0] != '#'
  }

  predicate ReadsAs(raw: string, q: Query, entry: Entry) {
    Counts(raw) && q.parse(Trim(raw)) == Some(entry)
  }

  /** A plain entry for our host with this key of the presented algorithm. */
  ghost predicate NamesKey(raw: string, q: Query, list: seq<string>, material: string) {
    ReadsAs(raw, q, Entry(None, Patterns(list), PublicKey(q.key.algorithm, material))) && ListMatches(q.lookup, list)
  }

  /** A plain entry for our host with exactly the presented key. */
  ghost predicate Holds(raw: string, q: Query) {
    !q.cert && exists list :: NamesKey(raw, q, list, q.key.material)
  }

  /** A revocation of exactly that key, for whatever hosts. */
  ghost predicate Revokes(raw: string, q: Query) {
    exists hosts :: ReadsAs(raw, q, Entry(Some(Revoked), hosts, q.key))
  }

  /** A plain entry for our host with another key of the same algorithm. */
  ghost predicate NamesOther(raw: string, q: Query) {
    !q.cert && exists list, material :: NamesKey(raw, q, list, material) && material != q.key.material
  }

  /** A line the parser rejects that names our host. */
  ghost predicate Obscure(raw: string, q: Query) {
    Counts(raw) && q.parse(Trim(raw)) == None && RawTargets(Trim(raw), q.lookup)
  }

  lemma NoMarker(m: Option<Marker>)
    requires m != Some(Revoked) && m != Some(CertAuthority)
    ensures m == None
  {
    if m.Some? {
      match m.value {
        case Revoked =>
        case CertAuthority =>
      }
    }
  }

  lemma KindMeans(raw: string, q: Query)
    ensures Kind(raw, q).Holding? <==> Holds(raw, q)
    ensures Kind(raw, q).Revoking? <==> Revokes(raw, q)
    ensures Kind(raw, q).Rival? <==> NamesOther(raw, q)
    ensures Kind(raw, q).Unreadable? <==> Obscure(raw, q)
  {
    if Counts(raw) && q.parse(Trim(raw)).Some? {
      var e := q.parse(Trim(raw)).value;
      if Kind(raw, q).Holding? || Kind(raw, q).Rival? {
        NoMarker(e.marker);
        assert e == Entry(None, Patterns(e.hosts.list), PublicKey(q.key.algorithm, e.key.material));
        assert NamesKey(raw, q, e.hosts.list, e.key.material);
      }
      if Kind(raw, q).Revoking? {
        assert ReadsAs(raw, q, Entry(Some(Revoked), e.hosts, q.key));
      }
    }
  }

  ghost predicate SomeHolds(lines: seq<string>, q: Query, n: nat)
    requires n <= |lines|
  {
    exists m | 0 <= m < n :: Holds(lines[m], q)
  }

  /** None of the first `n` lines settles the file where it stands. */
  ghost predicate NoneSettles(lines: seq<string>, q: Query, n: nat)
    requires n <= |lines|
  {
    forall d | 0 <= d < n :: !Revokes(lines[d], q) && (Obscure(lines[d], q) ==> SomeHolds(lines, q, d))
  }

  lemma LinesAreKinds(lines: seq<string>, q: Query, n: nat)
    requires n <= |lines|
    ensures HoldsBefore(Kinds(lines, q), n) <==> SomeHolds(lines, q, n)
    ensures forall m | 0 <= m < |lines| ::
              && (Kinds(lines, q)[m].Holding? <==> Holds(lines[m], q))
              && (Kinds(lines, q)[m].Revoking? <==> Revokes(lines[m], q))
              && (Kinds(lines, q)[m].Rival? <==> NamesOther(lines[m], q))
              && (Kinds(lines, q)[m].Unreadable? <==> Obscure(lines[m], q))
  {
    forall m | 0 <= m < |lines|
      ensures Kinds(lines, q)[m].Holding? <==> Holds(lines[m], q)
      ensures Kinds(lines, q)[m].Revoking? <==> Revokes(lines[m], q)
      ensures Kinds(lines, q)[m].Rival? <==> NamesOther(lines[m], q)
      ensures Kinds(lines, q)[m].Unreadable? <==> Obscure(lines[m], q)
    {
      KindMeans(lines[m], q);
    }
  }

  lemma SettlesAreDecisive(lines: seq<string>, q: Query, n: nat)
    requires n <= |lines|
    ensures NoneSettles(lines, q, n) <==> forall d: nat | d < n :: !Decisive(Kinds(lines, q), d)
  {
    LinesAreKinds(lines, q, n);
    var kinds := Kinds(lines, q);
    forall d: nat | d < n
      ensures Decisive(kinds, d) <==> Revokes(lines[d], q) || (Obscure(lines[d], q) && !SomeHolds(lines, q, d))
    {
      LinesAreKinds(lines, q, d);
    }
    if NoneSettles(lines, q, n) {
      forall d: nat | d < n
        ensures !Decisive(kinds, d)
      {
      }
    } else {
      var d :| 0 <= d < n && (Revokes(lines[d], q) || (Obscure(lines[d], q) && !SomeHolds(lines, q, d)));
      assert Decisive(kinds, d);
    }
  }

  lemma NoneDecisiveMeans(lines: seq<string>, q: Query)
    ensures NoneDecisive(Kinds(lines, q)) <==> NoneSettles(lines, q, |lines|)
  {
    SettlesAreDecisive(lines, q, |lines|);
    assert forall d: nat :: Decisive(Kinds(lines, q), d) ==> d < |lines|;
  }

  /** Without a line that settles the file, a match anywhere in it wins, and
      then the first other key. */
  lemma MatchedMeans(lines: seq<string>, q: Query)
    ensures Verdict(Kinds(lines, q), Matched) <==> NoneSettles(lines, q, |lines|) && SomeHolds(lines, q, |lines|)
    ensures Verdict(Kinds(lines, q), Absent) <==>
              NoneSettles(lines, q, |lines|) && !SomeHolds(lines, q, |lines|)
              && forall m | 0 <= m < |lines| :: !NamesOther(lines[m], q)
  {
    LinesAreKinds(lines, q, |lines|);
    NoneDecisiveMeans(lines, q);
  }

  lemma ChangedMeans(lines: seq<string>, q: Query, n: nat)
    requires 0 < n <= |lines|
    ensures Verdict(Kinds(lines, q), Changed(n)) <==>
              && NoneSettles(lines, q, |lines|) && !SomeHolds(lines, q, |lines|) && NamesOther(lines[n - 1], q)
              && forall m | 0 <= m < n - 1 :: !NamesOther(lines[m], q)
  {
    LinesAreKinds(lines, q, |lines|);
    NoneDecisiveMeans(lines, q);
  }

  /** A revocation, or a line that cannot be read with no match above it,
      settles the file where it stands. */
  lemma SettledMeans(lines: seq<string>, q: Query, n: nat)
    requires 0 < n <= |lines|
    ensures Verdict(Kinds(lines, q), RevokedAt(n)) <==> NoneSettles(lines, q, n - 1) && Revokes(lines[n - 1], q)
    ensures Verdict(Kinds(lines, q), Malformed(Line(n))) <==>
              NoneSettles(lines, q, n - 1) && Obscure(lines[n - 1], q) && !SomeHolds(lines, q, n - 1)
  {
    LinesAreKinds(lines, q, n - 1);
    SettlesAreDecisive(lines, q, n - 1);
  }

  // -- the hashed entries, and the file as a whole ------------------------------

  /** What the library's checker for hashed entries answered, whatever it is. */
  datatype Fallback = Known(hit: bool) | KeyChanged(line: nat) | Failed(text: string)

  function FromHashedFallback(f: Fallback): Check {
    match f
    case Known(hit) => if hit then Matched else Absent
    case KeyChanged(line) => Changed(line)
    case Failed(text) => Malformed(Other(text))
  }

  /** One known_hosts file: its lines when it can be read, and the answer the
      hashed-entry checker would give for it. */
  datatype KnownFile = KnownFile(content: Option<seq<string>>, hashed: Fallback)

  /** The verdict on one file: the scan decides, and only an Absent scan (or
      an unreadable file) consults the fallback. */
  ghost predicate FileVerdict(f: KnownFile, q: Query, v: Check) {
    match f.content
    case None => v == FromHashedFallback(f.hashed)
    case Some(lines) =>
      if Verdict(Kinds(lines, q), Absent) then v == FromHashedFallback(f.hashed)
      else Verdict(Kinds(lines, q), v)
  }

  method CheckKnownHostFile(f: KnownFile, q: Query) returns (v: Check)
    ensures FileVerdict(f, q, v)
  {
    var scan := Absent;
    if f.content.Some? {
      scan := ScanKnownHosts(f.content.value, q);
      if scan != Absent && Verdict(Kinds(f.content.value, q), Absent) {
        VerdictUnique(Kinds(f.content.value, q), Absent, scan);
      }
    }
    v := if scan.Absent? then FromHashedFallback(f.hashed) else scan;
  }

  // -- the list of files ------------------------------------------------------

  datatype Reason =
    | RevokedIn(file: nat, no: nat)
    | ChangedIn(file: nat, at: nat)
    | BlockedIn(file: nat, detail: Detail)
    | NoReadableFile
    | NotFoundIn(checked: seq<nat>)
    | CertificateUnverified

  datatype Decision = Accept | Reject(reason: Reason)

  ghost predicate AllAbsent(files: seq<KnownFile>, q: Query, n: nat)
    requires n <= |files|
  {
    forall k | 0 <= k < n :: FileVerdict(files[k], q, Absent)
  }

  /** File `k` decides with verdict `v`: everything before it is Absent. */
  ghost predicate DecidedAt(files: seq<KnownFile>, q: Query, k: nat, v: Check) {
    k < |files| && AllAbsent(files, q, k) && FileVerdict(files[k], q, v) && v != Absent
  }

  /** The rejection (or acceptance) that the deciding verdict stands for. */
  function Outcome(k: nat, v: Check): Decision
    requires !v.Absent?
  {
    match v
    case Matched => Accept
    case RevokedAt(n) => Reject(RevokedIn(k, n))
    case Changed(n) => Reject(ChangedIn(k, n))
    case Malformed(d) => Reject(BlockedIn(k, d))
  }

  /** The first non-Absent file decides alone; without one, strictness does. */
  ghost predicate Decided(files: seq<KnownFile>, q: Query, strict: bool, r: Decision) {
    || (exists k: nat, v: Check :: DecidedAt(files, q, k, v) && r == Outcome(k, v))
    || (AllAbsent(files, q, |files|)
        && r == if !strict then Accept
                else if files == [] then Reject(NoReadableFile)
                else Reject(NotFoundIn(seq(|files|, i => i))))
  }

  method DecideHostKey(files: seq<KnownFile>, q: Query, strict: bool) returns (r: Decision, ghost consulted: nat)
    ensures Decided(files, q, strict, r)
    ensures consulted <= |files|
    ensures consulted > 0 ==> AllAbsent(files, q, consulted - 1)
    ensures consulted < |files| ==> !AllAbsent(files, q, consulted)
  {
    var checked: seq<nat> := [];
    consulted := 0;
    for k := 0 to |files|
      invariant consulted == k && AllAbsent(files, q, k)
      invariant checked == seq(k, i => i)
    {
      var v := CheckKnownHostFile(files[k], q);
      consulted := k + 1;
      if v.Absent? {
        checked := checked + [k];
      } else {
        assert DecidedAt(files, q, k, v);
        if FileVerdict(files[k], q, Absent) { FileVerdictUnique(files[k], q, v, Absent); }
        return Outcome(k, v), consulted;
      }
    }
    if !strict {
      return Accept, consulted;
    }
    if checked == [] {
      return Reject(NoReadableFile), consulted;
    }
    r := Reject(NotFoundIn(checked));
  }

  /** A file has one verdict, and the list has one decision. */
  lemma FileVerdictUnique(f: KnownFile, q: Query, v: Check, w: Check)
    requires FileVerdict(f, q, v) && FileVerdict(f, q, w)
    ensures v == w
  {
    if f.content.Some? && !Verdict(Kinds(f.content.value, q), Absent) {
      VerdictUnique(Kinds(f.content.value, q), v, w);
    }
  }

  lemma DecidedAtUnique(files: seq<KnownFile>, q: Query, k: nat, v: Check, l: nat, w: Check)
    requires DecidedAt(files, q, k, v) && DecidedAt(files, q, l, w)
    ensures k == l && v == w
  {
    if k < l { FileVerdictUnique(files[k], q, v, Absent); }
    if l < k { FileVerdictUnique(files[l], q, w, Absent); }
    if k == l { FileVerdictUnique(files[k], q, v, w); }
  }

  lemma AllAbsentExcludesDecider(files: seq<KnownFile>, q: Query, k: nat, v: Check)
    requires DecidedAt(files, q, k, v)
    ensures !AllAbsent(files, q, |files|)
  {
    if FileVerdict(files[k], q, Absent) { FileVerdictUnique(files[k], q, v, Absent); }
  }

  lemma DecidedUnique(files: seq<KnownFile>, q: Query, strict: bool, r: Decision, t: Decision)
    requires Decided(files, q, strict, r) && Decided(files, q, strict, t)
    ensures r == t
  {
    if k: nat, v: Check :| DecidedAt(files, q, k, v) {
      AllAbsentExcludesDecider(files, q, k, v);
      var k1: nat, v1: Check :| DecidedAt(files, q, k1, v1) && r == Outcome(k1, v1);
      var k2: nat, v2: Check :| DecidedAt(files, q, k2, v2) && t == Outcome(k2, v2);
      DecidedAtUnique(files, q, k1, v1, k2, v2);
    }
  }

  /** Acceptance, exactly: some file matches behind Absent ones, or nothing is
      recorded anywhere and the mode is not strict. */
  lemma AcceptedExactly(files: seq<KnownFile>, q: Query, strict: bool, r: Decision)
    requires Decided(files, q, strict, r)
    ensures r == Accept <==>
            || (exists k: nat :: DecidedAt(files, q, k, Matched))
            || (!strict && AllAbsent(files, q, |files|))
  {
    if k: nat :| DecidedAt(files, q, k, Matched) {
      assert Outcome(k, Matched) == Accept;
      assert Decided(files, q, strict, Accept);
      DecidedUnique(files, q, strict, r, Accept);
    } else if !strict && AllAbsent(files, q, |files|) {
      assert Decided(files, q, strict, Accept);
      DecidedUnique(files, q, strict, r, Accept);
    }
  }

  /** A parsed @revoked line for this key, somewhere in a readable file. */
  ghost predicate RecordsRevocation(f: KnownFile, q: Query) {
    f.content.Some? && exists d | 0 <= d < |f.content.value| :: Kind(f.content.value[d], q).Revoking?
  }

  /** Whatever the fallback says, a file that lets the decision pass (Absent or
      Matched) records no revocation of the key. */
  lemma PassedFileHasNoRevocation(f: KnownFile, q: Query, v: Check)
    requires FileVerdict(f, q, v) && (v == Absent || v == Matched)
    ensures !RecordsRevocation(f, q)
  {
    if f.content.Some? {
      var kinds := Kinds(f.content.value, q);
      assert NoneDecisive(kinds) by { assert Verdict(kinds, v) || Verdict(kinds, Absent); }
      forall d: nat | d < |f.content.value| ensures !Kind(f.content.value[d], q).Revoking? {
        assert !Decisive(kinds, d);
      }
    }
  }

  /** No readable file up to and including the deciding one holds a revocation
      of an accepted key, for any behaviour of the fallback. */
  lemma AcceptedKeyNotRevoked(files: seq<KnownFile>, q: Query, strict: bool)
    requires Decided(files, q, strict, Accept)
    ensures || (AllAbsent(files, q, |files|) && forall m | 0 <= m < |files| :: !RecordsRevocation(files[m], q))
            || (exists k: nat :: DecidedAt(files, q, k, Matched)
                                 && forall m | 0 <= m <= k :: !RecordsRevocation(files[m], q))
  {
    AcceptedExactly(files, q, strict, Accept);
    if k: nat :| DecidedAt(files, q, k, Matched) {
      forall m | 0 <= m <= k ensures !RecordsRevocation(files[m], q) {
        PassedFileHasNoRevocation(files[m], q, if m == k then Matched else Absent);
      }
    } else {
      forall m | 0 <= m < |files| ensures !RecordsRevocation(files[m], q) {
        PassedFileHasNoRevocation(files[m], q, Absent);
      }
    }
  }

  /** Files behind the deciding one are never looked at. */
  lemma LaterFilesIrrelevant(files: seq<KnownFile>, more: seq<KnownFile>, q: Query, strict: bool, k: nat, v: Check)
    requires DecidedAt(files, q, k, v)
    ensures Decided(files + more, q, strict, Outcome(k, v))
  {
    var all := files + more;
    forall m | 0 <= m < k ensures FileVerdict(all[m], q, Absent) {
      assert all[m] == files[m];
    }
    assert all[k] == files[k] && AllAbsent(all, q, k);
    assert DecidedAt(all, q, k, v);
  }

  // -- the decision, from the answers themselves -------------------------------

  /** The scan has nothing to say: the file is unreadable, or no line of it
      does. */
  ghost predicate ScanSilent(f: KnownFile, q: Query) {
    f.content.None? || Verdict(Kinds(f.content.value, q), Absent)
  }

  ghost predicate ScanSays(f: KnownFile, q: Query, v: Check) {
    f.content.Some? && v != Absent && Verdict(Kinds(f.content.value, q), v)
  }

  /** Neither the scan nor the hashed-entry checker knows the host. */
  ghost predicate Unknown(f: KnownFile, q: Query) {
    ScanSilent(f, q) && f.hashed == Known(false)
  }

  ghost predicate Vouches(f: KnownFile, q: Query) {
    ScanSays(f, q, Matched) || (ScanSilent(f, q) && f.hashed == Known(true))
  }

  ghost predicate SaysChanged(f: KnownFile, q: Query, at: nat) {
    ScanSays(f, q, Changed(at)) || (ScanSilent(f, q) && f.hashed == KeyChanged(at))
  }

  ghost predicate Blocks(f: KnownFile, q: Query, detail: Detail) {
    || ScanSays(f, q, Malformed(detail))
    || (ScanSilent(f, q) && detail.Other? && f.hashed == Failed(detail.text))
  }

  /** No file before the `k`-th knows the host. */
  ghost predicate UnknownBefore(files: seq<KnownFile>, q: Query, k: nat)
    requires k <= |files|
  {
    forall m | 0 <= m < k :: Unknown(files[m], q)
  }

  /** What a file's verdict comes from. */
  lemma VerdictComesFrom(f: KnownFile, q: Query)
    ensures FileVerdict(f, q, Absent) <==> Unknown(f, q)
    ensures FileVerdict(f, q, Matched) <==> Vouches(f, q)
    ensures forall at :: FileVerdict(f, q, Changed(at)) <==> SaysChanged(f, q, at)
    ensures forall detail :: FileVerdict(f, q, Malformed(detail)) <==> Blocks(f, q, detail)
    ensures forall no :: FileVerdict(f, q, RevokedAt(no)) <==> ScanSays(f, q, RevokedAt(no))
  {
    if f.content.Some? {
      var kinds := Kinds(f.content.value, q);
      forall w | Verdict(kinds, w) && Verdict(kinds, Absent)
        ensures w == Absent
      {
        VerdictUnique(kinds, Absent, w);
      }
    }
  }

  lemma UnknownIsAbsent(files: seq<KnownFile>, q: Query, k: nat)
    requires k <= |files|
    ensures UnknownBefore(files, q, k) <==> AllAbsent(files, q, k)
  {
    forall m | 0 <= m < k
      ensures Unknown(files[m], q) <==> FileVerdict(files[m], q, Absent)
    {
      VerdictComesFrom(files[m], q);
    }
  }

  /** The first file that knows the host answers as its verdict does. */
  lemma AnswersAt(files: seq<KnownFile>, q: Query, strict: bool, r: Decision, k: nat, v: Check)
    requires Decided(files, q, strict, r) && k < |files| && UnknownBefore(files, q, k)
    requires FileVerdict(files[k], q, v) && v != Absent
    ensures r == Outcome(k, v)
  {
    UnknownIsAbsent(files, q, k);
    assert DecidedAt(files, q, k, v);
    assert Decided(files, q, strict, Outcome(k, v));
    DecidedUnique(files, q, strict, r, Outcome(k, v));
  }

  /** A plain key is accepted exactly when the first file that knows the host,
      by its lines or by the hashed-entry checker, has this very key, or no
      file knows it and the mode is not strict. */
  lemma AcceptedByFiles(files: seq<KnownFile>, q: Query, strict: bool, r: Decision)
    requires Decided(files, q, strict, r)
    ensures r == Accept <==>
            || (exists k :: 0 <= k < |files| && UnknownBefore(files, q, k) && Vouches(files[k], q))
            || (!strict && UnknownBefore(files, q, |files|))
  {
    AcceptedExactly(files, q, strict, r);
    UnknownIsAbsent(files, q, |files|);
    forall k | 0 <= k < |files|
      ensures UnknownBefore(files, q, k) && Vouches(files[k], q) <==> DecidedAt(files, q, k, Matched)
    {
      UnknownIsAbsent(files, q, k);
      VerdictComesFrom(files[k], q);
    }
  }

  /** The first file that knows the host and does not vouch for the key rejects
      it, for its own reason: a revocation, another key, whether in a line or in
      a hashed entry, or an answer that cannot be had. */
  lemma RejectedByFile(files: seq<KnownFile>, q: Query, strict: bool, r: Decision, k: nat)
    requires Decided(files, q, strict, r) && k < |files| && UnknownBefore(files, q, k)
    ensures forall no :: ScanSays(files[k], q, RevokedAt(no)) ==> r == Reject(RevokedIn(k, no))
    ensures forall at :: SaysChanged(files[k], q, at) ==> r == Reject(ChangedIn(k, at))
    ensures forall detail :: Blocks(files[k], q, detail) ==> r == Reject(BlockedIn(k, detail))
  {
    VerdictComesFrom(files[k], q);
    forall no | ScanSays(files[k], q, RevokedAt(no))
      ensures r == Reject(RevokedIn(k, no))
    {
      AnswersAt(files, q, strict, r, k, RevokedAt(no));
    }
    forall at | SaysChanged(files[k], q, at)
      ensures r == Reject(ChangedIn(k, at))
    {
      AnswersAt(files, q, strict, r, k, Changed(at));
    }
    forall detail | Blocks(files[k], q, detail)
      ensures r == Reject(BlockedIn(k, detail))
    {
      AnswersAt(files, q, strict, r, k, Malformed(detail));
    }
  }

  /** A strict mode names the files it looked in, or that there was none. */
  lemma RejectedUnknown(files: seq<KnownFile>, q: Query, r: Decision)
    requires Decided(files, q, true, r) && UnknownBefore(files, q, |files|)
    ensures r == Reject(if files == [] then NoReadableFile else NotFoundIn(seq(|files|, i => i)))
  {
    UnknownIsAbsent(files, q, |files|);
    DecidedUnique(files, q, true, r, Reject(if files == [] then NoReadableFile else NotFoundIn(seq(|files|, i => i))));
  }

  // -- certificates -----------------------------------------------------------

  /** One of the first `n` files revokes the key first. */
  ghost predicate SomeRevokes(files: seq<KnownFile>, q: Query, n: nat)
    requires n <= |files|
  {
    exists k | 0 <= k < n :: RevokedFirst(files[k], q)
  }

  /** The first file whose verdict is a revocation rejects the certificate;
      without one the mode decides. */
  ghost predicate CertDecided(files: seq<KnownFile>, q: Query, strict: bool, r: Decision) {
    if SomeRevokes(files, q, |files|)
    then r.Reject? && r.reason.RevokedIn? && r.reason.file < |files| && !SomeRevokes(files, q, r.reason.file)
         && FileVerdict(files[r.reason.file], q, RevokedAt(r.reason.no))
    else r == if strict then Reject(CertificateUnverified) else Accept
  }

  method DecideCertificate(files: seq<KnownFile>, q: Query, strict: bool) returns (r: Decision)
    requires q.cert
    ensures CertDecided(files, q, strict, r)
  {
    for k := 0 to |files|
      invariant !SomeRevokes(files, q, k)
    {
      var v := CheckKnownHostFile(files[k], q);
      RevokedVerdictExactly(files[k], q, v);
      if v.RevokedAt? {
        assert SomeRevokes(files, q, |files|);
        return Reject(RevokedIn(k, v.no));
      }
      NoneMore(files, q, k);
    }
    r := if strict then Reject(CertificateUnverified) else Accept;
  }

  lemma NoneMore(files: seq<KnownFile>, q: Query, k: nat)
    requires k < |files| && !SomeRevokes(files, q, k) && !RevokedFirst(files[k], q)
    ensures !SomeRevokes(files, q, k + 1)
  {
  }

  /** The file records a revocation of the key with no unreadable line for our
      host above it. */
  ghost predicate RevokedFirst(f: KnownFile, q: Query) {
    f.content.Some? && exists d | 0 <= d < |f.content.value| ::
      Kind(f.content.value[d], q).Revoking?
      && forall m | 0 <= m < d :: !Kind(f.content.value[m], q).Unreadable?
  }

  /** For a certificate, where no plain line counts as a match, the file's
      verdict is a revocation exactly under that condition. */
  lemma RevokedVerdictExactly(f: KnownFile, q: Query, v: Check)
    requires q.cert && FileVerdict(f, q, v)
    ensures v.RevokedAt? <==> RevokedFirst(f, q)
  {
    if f.content.Some? {
      var lines := f.content.value;
      var kinds := Kinds(lines, q);
      assert forall m | 0 <= m < |kinds| :: !kinds[m].Holding?;
      assert forall d: nat :: Decisive(kinds, d) <==> d < |kinds| && (kinds[d].Revoking? || kinds[d].Unreadable?);
      if v.RevokedAt? {
        var d := v.no - 1;
        assert Verdict(kinds, v);
        assert forall m: nat | m < d :: !Decisive(kinds, m);
      }
      if RevokedFirst(f, q) {
        var d: nat :| d < |lines| && Kind(lines[d], q).Revoking?
                      && forall m | 0 <= m < d :: !Kind(lines[m], q).Unreadable?;
        assert Decisive(kinds, d);
        FirstRevoking(kinds, d, v);
      }
    }
  }

  lemma FirstRevoking(kinds: seq<LineKind>, d: nat, v: Check)
    requires d < |kinds| && kinds[d].Revoking? && forall m | 0 <= m < d :: !kinds[m].Unreadable?
    requires if Verdict(kinds, Absent) then true else Verdict(kinds, v)
    ensures v.RevokedAt?
  {
    assert Decisive(kinds, d);
    forall e: nat | FirstDecisive(kinds, e) ensures kinds[e].Revoking? {
      assert e <= d;
    }
  }

  /** "A certificate for a key that a readable file revokes is rejected": false
      of this file, which holds an unreadable line for our host and below it
      the revocation. The certificate is accepted when the mode is not strict,
      whatever the fallback answers. RevokedVerdictExactly and CertDecided give
      the exact condition. */
  lemma UnreadableLineHidesRevocation(key: PublicKey, hashed: Fallback, r: Decision)
    requires CertDecided([HidingFile(hashed)], HidingQuery(key), false, r)
    ensures Kinds(HIDING, HidingQuery(key)) == [Unreadable, Revoking]
    ensures RecordsRevocation(HidingFile(hashed), HidingQuery(key)) && r == Accept
  {
    var f, q := HidingFile(hashed), HidingQuery(key);
    HidingKinds(key);
    assert Kind(f.content.value[1], q).Revoking?;
    assert !RevokedFirst(f, q) by { assert Kind(f.content.value[0], q).Unreadable?; }
  }

  const HIDING: seq<string> := ["h k", "@revoked h k"]

  function HidingFile(hashed: Fallback): KnownFile {
    KnownFile(Some(HIDING), hashed)
  }

  /** A parser that understands the second line only. */
  function HidingQuery(key: PublicKey): Query {
    Query(line => if line == HIDING[1] then Some(Entry(Some(Revoked), Patterns(["h"]), key)) else None, "h", key, true)
  }

  lemma TrimNothing(s: string)
    requires s != "" && !IsSpace(s[0]) && !IsSpace(s[|s| - 1])
    ensures Trim(s) == s
  {
  }

  lemma HidingKinds(key: PublicKey)
    ensures Kinds(HIDING, HidingQuery(key)) == [Unreadable, Revoking]
  {
    TrimNothing(HIDING[0]);
    TrimNothing(HIDING[1]);
    FirstFieldTargets();
  }

  lemma FirstFieldTargets()
    ensures RawTargets("h k", "h")
  {
    var line := "h k";
    assert line[1..] == " k";
    assert Field(line) == "h" by { assert Field(" k") == ""; }
    assert Fields(line)[0] == "h";
    assert HostField(line) == Some("h");
    assert "h"[1..] == "";
    assert SplitComma("h") == ["h"] by { assert SplitComma("") == [""]; }
    assert Lower("h") == "h" && Body("h") == "h";
    assert Denotes("h", "h") by { assert Denotes("", ""); }
    assert !Negated(["h"][0]) && Hits("h", ["h"][0]);
  }
}
