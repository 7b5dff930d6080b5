/** The known_hosts wildcard matcher: an iterative matcher that remembers only
    the last `*`, against the recursive meaning of a pattern. */
module Glob {
  import opened Prelude

  /** What a pattern means: `*` is any sequence, `?` any one character. */
  ghost predicate Denotes(s: string, p: string)
    decreases |p|
  {
    if p == "" then s == ""
    else if p[0] == '*' then exists k | 0 <= k <= |s| :: Denotes(s[k..], p[1..])
    else s != "" && (p[0] == '?' || p[0] == s[0]) && Denotes(s[1..], p[1..])
  }

  /** A star-free stretch of the pattern consumes exactly its own length. */
  lemma {:induction false} StarFreeStretch(s: string, p: string, n: nat)
    requires n <= |p| && '*' !in p[..n]
    requires Denotes(s, p)
    ensures n <= |s| && Denotes(s[n..], p[n..])
    decreases n
  {
    if n == 0 {
      assert s[0..] == s && p[0..] == p;
    } else {
      assert p[0] in p[..n];
      assert p[1..][..n - 1] == p[..n][1..];
      StarFreeStretch(s[1..], p[1..], n - 1);
      assert s[1..][n - 1..] == s[n..] && p[1..][n - 1..] == p[n..];
    }
  }

  /** Some later absorption point of the remembered star completes the match. */
  ghost predicate LaterAbsorption(s: string, after: string, from: nat) {
    exists k | from < k <= |s| :: Denotes(s[k..], after)
  }

  /** The older star may be forgotten when a newer one is met: between the two
      the pattern is star-free, so any later choice for the older star reaches
      the newer one at a later subject position, which the newer star can
      absorb itself. */
  lemma OlderStarSubsumed(s: string, p: string, si: nat, pj: nat, i: nat, j: nat)
    requires si <= i <= |s| && pj <= j < |p| && i - si == j - pj
    requires p[j] == '*' && '*' !in p[pj..j]
    requires LaterAbsorption(s, p[pj..], si)
    ensures Denotes(s[i..], p[j..])
  {
    var k :| si < k <= |s| && Denotes(s[k..], p[pj..]);
    var n := j - pj;
    assert p[pj..][..n] == p[pj..j];
    StarFreeStretch(s[k..], p[pj..], n);
    assert s[k..][n..] == s[k + n..] && p[pj..][n..] == p[j..];
    var m :| 0 <= m <= |s[k + n..]| && Denotes(s[k + n..][m..], p[j..][1..]);
    var d := k + n + m - i;
    assert s[k + n..][m..] == s[i..][d..];
  }

  /** What a star chooses: stop here, or absorb at least one more character. */
  lemma StarChoice(s: string, p: string, i: nat, j: nat)
    requires i <= |s| && j < |p| && p[j] == '*'
    ensures Denotes(s[i..], p[j..]) <==> Denotes(s[i..], p[j + 1..]) || LaterAbsorption(s, p[j + 1..], i)
  {
    assert p[j..][1..] == p[j + 1..];
    if Denotes(s[i..], p[j..]) {
      var k :| 0 <= k <= |s[i..]| && Denotes(s[i..][k..], p[j..][1..]);
      assert s[i..][k..] == s[i + k..];
    }
    if Denotes(s[i..], p[j + 1..]) {
      assert s[i..][0..] == s[i..];
    }
    if LaterAbsorption(s, p[j + 1..], i) {
      var k :| i < k <= |s| && Denotes(s[k..], p[j + 1..]);
      assert s[i..][k - i..] == s[k..];
    }
  }

  /** One more character for the star: the next absorption point, or a later one. */
  lemma NextAbsorption(s: string, after: string, from: nat)
    requires from < |s|
    ensures LaterAbsorption(s, after, from)
        <==> Denotes(s[from + 1..], after) || LaterAbsorption(s, after, from + 1)
  {
  }

  /** The two ways a match can still come about: from the positions reached,
      or by a later choice for the remembered star, at `si` in the subject and
      in front of `pj` in the pattern. */
  ghost predicate Possible(s: string, p: string, i: nat, j: nat, star: bool, si: nat, pj: nat)
    requires i <= |s| && pj <= j <= |p|
  {
    Denotes(s[i..], p[j..]) || (star && LaterAbsorption(s, p[pj..], si))
  }

  /** A star is met, and replaces the one remembered. */
  lemma AtStar(s: string, p: string, i: nat, j: nat, star: bool, si: nat, pj: nat)
    requires i <= |s| && pj <= j < |p| && p[j] == '*' && '*' !in p[pj..j]
    requires star ==> si <= i && i - si == j - pj
    ensures Possible(s, p, i, j, star, si, pj) <==> Possible(s, p, i, j + 1, true, i, j + 1)
  {
    StarChoice(s, p, i, j);
    if star && LaterAbsorption(s, p[pj..], si) {
      OlderStarSubsumed(s, p, si, pj, i, j);
    }
  }

  /** One character matches one pattern character. */
  lemma AtMatch(s: string, p: string, i: nat, j: nat, star: bool, si: nat, pj: nat)
    requires i < |s| && pj <= j < |p| && p[j] != '*' && (p[j] == '?' || p[j] == s[i])
    ensures Possible(s, p, i, j, star, si, pj) <==> Possible(s, p, i + 1, j + 1, star, si, pj)
    ensures '*' !in p[pj..j] ==> '*' !in p[pj..j + 1]
  {
    assert s[i..][1..] == s[i + 1..] && p[j..][1..] == p[j + 1..];
    assert p[pj..j + 1] == p[pj..j] + [p[j]];
  }

  /** A mismatch: the remembered star absorbs one more character, if it can. */
  lemma AtMismatch(s: string, p: string, i: nat, j: nat, star: bool, si: nat, pj: nat)
    requires i <= |s| && pj <= j <= |p| && !Denotes(s[i..], p[j..])
    ensures !star || si >= |s| ==> !Possible(s, p, i, j, star, si, pj)
    ensures star && si < |s| ==>
      (Possible(s, p, i, j, star, si, pj) <==> Possible(s, p, si + 1, pj, true, si + 1, pj))
  {
    if star && si < |s| {
      NextAbsorption(s, p[pj..], si);
    }
  }

  /** The matcher of the source, with its two working slices, the remembered
      star, and its backtracking. `steps` counts loop iterations. */
  method MatchPattern(subject: string, glob: string) returns (matches: bool, ghost steps: nat)
    ensures matches <==> Denotes(subject, glob)
    ensures steps <= (|subject| + 1) * (|glob| + 1)
  {
    var s, pattern := subject, glob;
    var star: Option<(string, string)> := None;
    ghost var i, j, si, pj, rounds := 0, 0, 0, 0, 0;
    steps := 0;
    while true
      invariant i <= |subject| && s == subject[i..]
      invariant pj <= j <= |glob| && pattern == glob[j..]
      invariant star.Some? ==> si <= i && i - si == j - pj && star.value == (glob[pj..], subject[si..])
      invariant star.None? ==> i == j && pj == 0 && si == 0 && rounds == 0
      invariant '*' !in glob[pj..j]
      invariant Denotes(subject, glob) <==> Possible(subject, glob, i, j, star.Some?, si, pj)
      invariant rounds <= si && steps <= rounds * (|glob| + 1) + j
      decreases if star.None? then |subject| + 1 else |subject| - si, |glob| - j
    {
      steps := steps + 1;
      StepBound(rounds, si, |subject|, |glob|, j, steps);
      if pattern != "" && pattern[0] == '*' {
        AtStar(subject, glob, i, j, star.Some?, si, pj);
        pattern := pattern[1..];
        star := Some((pattern, s));
        j := j + 1;
        si, pj := i, j;
        continue;
      }
      if pattern == "" && s == "" {
        return true, steps;
      }
      if pattern != "" && s != "" && (pattern[0] == '?' || pattern[0] == s[0]) {
        AtMatch(subject, glob, i, j, star.Some?, si, pj);
        pattern, s := pattern[1..], s[1..];
        i, j := i + 1, j + 1;
        continue;
      }
      AtMismatch(subject, glob, i, j, star.Some?, si, pj);
      if star.None? || star.value.1 == "" {
        return false, steps;
      }
      s := star.value.1[1..];
      pattern := star.value.0;
      star := Some((pattern, s));
      rounds := rounds + 1;
      RoundBound(rounds, |glob|, steps);
      si := si + 1;
      i, j := si, pj;
    }
  }

  lemma StepBound(rounds: nat, si: nat, n: nat, m: nat, j: nat, steps: nat)
    requires rounds <= si <= n && j <= m && 0 < steps <= rounds * (m + 1) + j + 1
    ensures steps <= (n + 1) * (m + 1)
  {
    assert rounds * (m + 1) <= n * (m + 1);
  }

  lemma RoundBound(rounds: nat, m: nat, steps: nat)
    requires 0 < rounds && steps <= (rounds - 1) * (m + 1) + m + 1
    ensures steps <= rounds * (m + 1)
  {
  }

  /** ASCII lower case, character by character. */
  function LowerChar(c: char): char {
    if 'A' <= c <= 'Z' then ((c as int) + 32) as char else c
  }

  function Lower(s: string): (r: string)
    ensures |r| == |s| && forall k | 0 <= k < |s| :: r[k] == LowerChar(s[k])
  {
    if s == "" then "" else [LowerChar(s[0])] + Lower(s[1..])
  }

  function Negated(pattern: string): bool {
    pattern != "" && pattern[0] == '!'
  }

  function Body(pattern: string): string {
    if Negated(pattern) then pattern[1..] else pattern
  }

  /** Whether one list element, its `!` put aside, matches the host. */
  ghost predicate Hits(host: string, pattern: string) {
    Denotes(Lower(host), Lower(Body(pattern)))
  }

  /** One of the first `n` elements is plain and matches. */
  ghost predicate PlainHit(host: string, patterns: seq<string>, n: nat)
    requires n <= |patterns|
  {
    exists k | 0 <= k < n :: !Negated(patterns[k]) && Hits(host, patterns[k])
  }

  /** None of the first `n` elements is negated and matches. */
  ghost predicate NoVeto(host: string, patterns: seq<string>, n: nat)
    requires n <= |patterns|
  {
    forall k | 0 <= k < n :: Negated(patterns[k]) ==> !Hits(host, patterns[k])
  }

  /** Some plain element matches and no negated one does, wherever it stands. */
  ghost predicate ListMatches(host: string, patterns: seq<string>) {
    PlainHit(host, patterns, |patterns|) && NoVeto(host, patterns, |patterns|)
  }

  method MatchPatternList(host: string, patterns: seq<string>) returns (r: bool)
    ensures r <==> ListMatches(host, patterns)
  {
    var lowered := Lower(host);
    r := false;
    for k := 0 to |patterns|
      invariant r <==> PlainHit(host, patterns, k)
      invariant NoVeto(host, patterns, k)
    {
      var hit, _ := MatchPattern(lowered, Lower(Body(patterns[k])));
      OneMore(host, patterns, k);
      if hit {
        if Negated(patterns[k]) {
          assert !NoVeto(host, patterns, |patterns|);
          return false;
        }
        r := true;
      }
    }
  }

  lemma OneMore(host: string, patterns: seq<string>, k: nat)
    requires k < |patterns|
    ensures var hit := Hits(host, patterns[k]);
            && (PlainHit(host, patterns, k + 1) <==> PlainHit(host, patterns, k) || (hit && !Negated(patterns[k])))
            && (NoVeto(host, patterns, k + 1) <==> NoVeto(host, patterns, k) && !(hit && Negated(patterns[k])))
  {
  }

  /** The same letter of the ASCII alphabet, or the same character. */
  predicate SameLetter(a: char, b: char) {
    a == b || ('A' <= a <= 'Z' && b as int == a as int + 32) || ('A' <= b <= 'Z' && a as int == b as int + 32)
  }

  predicate SameFold(s: string, t: string) {
    |s| == |t| && forall k | 0 <= k < |s| :: SameLetter(s[k], t[k])
  }

  lemma LetterMeans(a: char, b: char)
    ensures LowerChar(a) == LowerChar(b) <==> SameLetter(a, b)
    ensures SameLetter(LowerChar(a), a) && !('A' <= LowerChar(a) <= 'Z')
  {
  }

  predicate NoCapital(s: string) {
    forall k | 0 <= k < |s| :: !('A' <= s[k] <= 'Z')
  }

  /** Lower case puts together exactly what differs in ASCII case only, and
      keeps no capital letter. */
  lemma LowerMeans(s: string, t: string)
    ensures Lower(s) == Lower(t) <==> SameFold(s, t)
    ensures SameFold(Lower(s), s) && NoCapital(Lower(s))
  {
    forall k | 0 <= k < |s|
      ensures SameLetter(Lower(s)[k], s[k]) && !('A' <= Lower(s)[k] <= 'Z')
    {
      LetterMeans(s[k], s[k]);
    }
    if |s| == |t| {
      assert Lower(s) == Lower(t) <==> forall k | 0 <= k < |s| :: Lower(s)[k] == Lower(t)[k];
      forall k | 0 <= k < |s|
        ensures Lower(s)[k] == Lower(t)[k] <==> SameLetter(s[k], t[k])
      {
        LetterMeans(s[k], t[k]);
      }
    }
  }

  /** The pattern stands for the host in some spelling of both that differs in
      ASCII case only. */
  ghost predicate FoldDenotes(host: string, pattern: string) {
    exists h, p :: SameFold(h, host) && SameFold(p, pattern) && NoCapital(h) && NoCapital(p) && Denotes(h, p)
  }

  lemma FoldDenotesMeans(host: string, pattern: string)
    ensures FoldDenotes(host, pattern) <==> Denotes(Lower(host), Lower(pattern))
  {
    LowerMeans(host, host);
    LowerMeans(pattern, pattern);
    if FoldDenotes(host, pattern) {
      var h, p :| SameFold(h, host) && SameFold(p, pattern) && NoCapital(h) && NoCapital(p) && Denotes(h, p);
      LowerMeans(h, host);
      LowerMeans(p, pattern);
      assert Lower(h) == h && Lower(p) == p;
    }
  }

  /** What a list means, from its elements as written: one without a leading
      exclamation mark stands for the host, and none with one does behind it. */
  lemma ListMeans(host: string, patterns: seq<string>)
    ensures ListMatches(host, patterns) <==>
              && (exists p :: p in patterns && !("!" <= p) && FoldDenotes(host, p))
              && (forall p | "!" + p in patterns :: !FoldDenotes(host, p))
  {
    forall p
      ensures FoldDenotes(host, p) <==> Denotes(Lower(host), Lower(p))
    {
      FoldDenotesMeans(host, p);
    }
    forall p | p in patterns
      ensures Negated(p) <==> "!" <= p
      ensures Negated(p) ==> p == "!" + Body(p)
    {
    }
    forall p
      ensures Negated("!" + p) && Body("!" + p) == p
    {
    }
  }

  /** Every element of `ps` is, up to ASCII case, an element of `qs`. */
  ghost predicate FoldsInto(ps: seq<string>, qs: seq<string>) {
    forall p | p in ps :: SomeFold(p, qs)
  }

  ghost predicate SomeFold(p: string, qs: seq<string>) {
    exists m | 0 <= m < |qs| :: SameFold(p, qs[m])
  }

  /** ASCII case never matters, in the host or in any pattern; nor does the
      order or repetition of the patterns, since the list matches by a
      condition on the set of its elements. */
  lemma CaseAndOrderIrrelevant(h1: string, h2: string, ps: seq<string>, qs: seq<string>)
    requires SameFold(h1, h2)
    requires FoldsInto(ps, qs) && FoldsInto(qs, ps)
    ensures ListMatches(h1, ps) <==> ListMatches(h2, qs)
  {
    LowerMeans(h1, h2);
    if ListMatches(h1, ps) {
      PositiveCarries(h1, h2, ps, qs);
      VetoCarries(h1, h2, ps, qs);
    }
    if ListMatches(h2, qs) {
      PositiveCarries(h2, h1, qs, ps);
      VetoCarries(h2, h1, qs, ps);
    }
  }

  lemma PositiveCarries(h1: string, h2: string, ps: seq<string>, qs: seq<string>)
    requires Lower(h1) == Lower(h2) && FoldsInto(ps, qs) && ListMatches(h1, ps)
    ensures exists k | 0 <= k < |qs| :: !Negated(qs[k]) && Hits(h2, qs[k])
  {
    var k :| 0 <= k < |ps| && !Negated(ps[k]) && Hits(h1, ps[k]);
    assert SomeFold(ps[k], qs);
    var m :| 0 <= m < |qs| && SameFold(ps[k], qs[m]);
    LowerMeans(ps[k], qs[m]);
    SameCaseFold(ps[k], qs[m]);
    assert !Negated(qs[m]) && Hits(h2, qs[m]);
  }

  lemma VetoCarries(h1: string, h2: string, ps: seq<string>, qs: seq<string>)
    requires Lower(h1) == Lower(h2) && FoldsInto(qs, ps) && ListMatches(h1, ps)
    ensures forall k | 0 <= k < |qs| :: Negated(qs[k]) ==> !Hits(h2, qs[k])
  {
    forall k | 0 <= k < |qs| && Negated(qs[k])
      ensures !Hits(h2, qs[k])
    {
      assert SomeFold(qs[k], ps);
      var m :| 0 <= m < |ps| && SameFold(qs[k], ps[m]);
      LowerMeans(qs[k], ps[m]);
      SameCaseFold(qs[k], ps[m]);
      assert !Hits(h1, ps[m]);
    }
  }

  /** Folding case keeps the negation mark and folds the body. */
  lemma SameCaseFold(p: string, q: string)
    requires Lower(p) == Lower(q)
    ensures Negated(p) == Negated(q) && Lower(Body(p)) == Lower(Body(q))
  {
    assert |p| == |q|;
    assert forall k | 0 <= k < |p| :: LowerChar(p[k]) == Lower(p)[k] == Lower(q)[k] == LowerChar(q[k]);
    if p != "" {
      assert LowerChar(p[0]) == LowerChar(q[0]);
      assert Lower(p)[1..] == Lower(p[1..]) && Lower(q)[1..] == Lower(q[1..]);
    }
  }
}
