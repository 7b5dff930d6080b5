/** Validated session names: one to 64 bytes of A-Z a-z 0-9 . _ - */
module SessionName {
  import opened Prelude
  import U = Utf8

  const MAX_LEN: nat := 64

  datatype NameError = Empty | TooLong(len: nat) | BadChar(c: char)
  datatype Parsed = Accept(name: string) | Reject(error: NameError)

  predicate IsAllowed(c: char) {
    'a' <= c <= 'z' || 'A' <= c <= 'Z' || '0' <= c <= '9' || c in "._-"
  }

  /** Length in UTF-8 bytes. */
  function ByteLength(s: string): nat {
    if s == "" then 0
    else (if s[0] < '\U{80}' then 1 else if s[0] < '\U{800}' then 2 else if s[0] < '\U{10000}' then 3 else 4)
         + ByteLength(s[1..])
  }

  /** Position `k` has the first character outside the charset. */
  ghost predicate BadAt(s: string, k: nat) {
    k < |s| && !IsAllowed(s[k]) && forall j | 0 <= j < k :: IsAllowed(s[j])
  }

  /** First character outside the charset. */
  function FirstBad(s: string): (r: Option<char>)
    ensures r.None? <==> forall c | c in s :: IsAllowed(c)
    ensures r.Some? ==> exists k: nat :: BadAt(s, k) && s[k] == r.value
  {
    if s == "" then None
    else if !IsAllowed(s[0]) then assert BadAt(s, 0); Some(s[0])
    else
      var r := FirstBad(s[1..]);
      assert r.Some? ==> exists k: nat :: BadAt(s, k) && s[k] == r.value by {
        if r.Some? {
          var k: nat :| BadAt(s[1..], k) && s[1..][k] == r.value;
          BadLater(s, k);
        }
      }
      assert forall c | c in s :: c == s[0] || c in s[1..];
      r
  }

  lemma BadLater(s: string, k: nat)
    requires s != "" && IsAllowed(s[0]) && BadAt(s[1..], k)
    ensures BadAt(s, k + 1) && s[k + 1] == s[1..][k]
  {
    forall j | 0 <= j < k + 1 ensures IsAllowed(s[j]) {
      if j > 0 { assert s[1..][j - 1] == s[j]; }
    }
  }

  function Parse(s: string): Parsed {
    if s == "" then Reject(Empty)
    else if ByteLength(s) > MAX_LEN then Reject(TooLong(ByteLength(s)))
    else
      match FirstBad(s)
      case Some(c) => Reject(BadChar(c))
      case None => Accept(s)
  }

  predicate Session(s: string) {
    Parse(s).Accept?
  }

  /** The byte limit is a character limit on the names that pass. */
  lemma {:induction false} AsciiLength(s: string)
    requires forall c | c in s :: IsAllowed(c)
    ensures ByteLength(s) == |s|
  {
    if s != "" {
      assert s[0] in s;
      AsciiLength(s[1..]);
    }
  }

  /** The charset by its ASCII codes. */
  lemma AllowedSet(c: char)
    ensures var n := c as int;
            IsAllowed(c) <==> 0x30 <= n <= 0x39 || 0x41 <= n <= 0x5A || 0x61 <= n <= 0x7A || n in {0x2D, 0x2E, 0x5F}
  {
  }

  /** The code points of a name. */
  function Points(s: string): (r: seq<nat>)
    ensures U.Scalars(r)
  {
    seq(|s|, i requires 0 <= i < |s| => s[i] as nat)
  }

  /** The length is that of the UTF-8 encoding. */
  lemma {:induction false} LengthInBytes(s: string)
    ensures ByteLength(s) == |U.EncodeAll(Points(s))|
  {
    if s != "" {
      LengthInBytes(s[1..]);
      assert Points(s)[1..] == Points(s[1..]);
    }
  }

  /** Why a name is rejected, in the order of the checks. */
  lemma RejectedExactly(s: string)
    ensures Parse(s) == Reject(Empty) <==> s == ""
    ensures forall n :: Parse(s) == Reject(TooLong(n)) <==> n == |U.EncodeAll(Points(s))| && n > 64
    ensures forall c :: Parse(s) == Reject(BadChar(c)) <==>
              0 < |U.EncodeAll(Points(s))| <= 64 && exists k: nat :: BadAt(s, k) && s[k] == c
  {
    LengthInBytes(s);
    if s == "" {
      assert Points(s) == [];
    } else {
      assert |U.Encode(Points(s)[0])| > 0;
    }
    forall k: nat, j: nat | BadAt(s, k) && BadAt(s, j)
      ensures k == j
    {
    }
    forall k: nat | BadAt(s, k)
      ensures s[k] in s
    {
    }
  }

  lemma ParseExactly(s: string)
    ensures Session(s) <==> 0 < |s| <= MAX_LEN && forall c | c in s :: IsAllowed(c)
    ensures Session(s) ==> Parse(s).name == s && '/' !in s && '\0' !in s
  {
    if forall c | c in s :: IsAllowed(c) {
      AsciiLength(s);
    }
  }
}
