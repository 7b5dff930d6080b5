/** UTF-8: the well-formed byte sequences of section 4 of RFC 3629, against the
    encoding of its section 3. */
module Utf8 {
  import opened Prelude

  // -- the encoding -----------------------------------------------------------

  /** A Unicode scalar value. */
  predicate Scalar(c: nat) {
    c <= 0x10FFFF && !(0xD800 <= c <= 0xDFFF)
  }

  function Encode(c: nat): Bytes
    requires Scalar(c)
  {
    if c < 0x80 then [c]
    else if c < 0x800 then [0xC0 + c / 64, 0x80 + c % 64]
    else if c < 0x10000 then [0xE0 + c / 4096, 0x80 + c / 64 % 64, 0x80 + c % 64]
    else [0xF0 + c / 262144, 0x80 + c / 4096 % 64, 0x80 + c / 64 % 64, 0x80 + c % 64]
  }

  predicate Scalars(cs: seq<nat>) {
    forall k | 0 <= k < |cs| :: Scalar(cs[k])
  }

  function EncodeAll(cs: seq<nat>): Bytes
    requires Scalars(cs)
  {
    if cs == [] then [] else Encode(cs[0]) + EncodeAll(cs[1..])
  }

  /** The encoding of some text. */
  ghost predicate Text(s: Bytes) {
    exists cs :: Scalars(cs) && EncodeAll(cs) == s
  }

  // -- the check --------------------------------------------------------------

  predicate Tail(b: byte) {
    0x80 <= b <= 0xBF
  }

  /** Length of the well-formed character a byte string starts with, 0 if none. */
  function CharLength(s: Bytes): (n: nat)
    ensures n <= |s|
  {
    if s == [] then 0
    else if s[0] <= 0x7F then 1
    else if |s| >= 2 && 0xC2 <= s[0] <= 0xDF && Tail(s[1]) then 2
    else if |s| >= 3 && Tail(s[2])
            && ((s[0] == 0xE0 && 0xA0 <= s[1] <= 0xBF) || (0xE1 <= s[0] <= 0xEC && Tail(s[1]))
                || (s[0] == 0xED && 0x80 <= s[1] <= 0x9F) || (0xEE <= s[0] <= 0xEF && Tail(s[1]))) then 3
    else if |s| >= 4 && Tail(s[2]) && Tail(s[3])
            && ((s[0] == 0xF0 && 0x90 <= s[1] <= 0xBF) || (0xF1 <= s[0] <= 0xF3 && Tail(s[1]))
                || (s[0] == 0xF4 && 0x80 <= s[1] <= 0x8F)) then 4
    else 0
  }

  predicate WellFormed(s: Bytes)
    decreases |s|
  {
    s == [] || (CharLength(s) > 0 && WellFormed(s[CharLength(s)..]))
  }

  // -- the check accepts exactly the encodings --------------------------------

  /** The table's rows are the leading bytes and ranges of the encoding. */
  lemma EncodedStarts(c: nat, rest: Bytes)
    requires Scalar(c)
    ensures CharLength(Encode(c) + rest) == |Encode(c)|
  {
    var s := Encode(c) + rest;
    if 0x800 <= c < 0x10000 {
      assert c / 4096 == 0 ==> c / 64 % 64 >= 32;
      assert c / 4096 == 13 ==> c / 64 % 64 < 32;
    } else if 0x10000 <= c {
      assert c / 262144 == 0 ==> c / 4096 % 64 >= 16;
      assert c / 262144 == 4 ==> c / 4096 % 64 < 16;
    }
  }

  /** The value of two, three or four groups of bits. */
  function Value2(a: nat, b: nat): nat {
    a * 64 + b
  }

  function Value3(a: nat, b: nat, c: nat): nat {
    Value2(a, b) * 64 + c
  }

  function Value4(a: nat, b: nat, c: nat, d: nat): nat {
    Value3(a, b, c) * 64 + d
  }

  lemma Groups(a: nat, b: nat)
    requires b < 64
    ensures (a * 64 + b) / 64 == a && (a * 64 + b) % 64 == b
  {
  }

  lemma Quotients(c: nat)
    ensures c / 4096 == c / 64 / 64 && c / 262144 == c / 64 / 64 / 64
  {
  }

  /** The value a well-formed character of this length stands for. */
  function Value(s: Bytes, n: nat): nat
    requires n == CharLength(s) > 0
  {
    var a: int := s[0];
    var b: int := if n > 1 then s[1] else 0x80;
    var c: int := if n > 2 then s[2] else 0x80;
    var d: int := if n > 3 then s[3] else 0x80;
    if n == 1 then a
    else if n == 2 then Value2(a - 0xC0, b - 0x80)
    else if n == 3 then Value3(a - 0xE0, b - 0x80, c - 0x80)
    else Value4(a - 0xF0, b - 0x80, c - 0x80, d - 0x80)
  }

  lemma Encode2(a: nat, b: nat)
    requires 2 <= a < 32 && b < 64
    ensures Scalar(Value2(a, b)) && Encode(Value2(a, b)) == [0xC0 + a, 0x80 + b]
  {
    Groups(a, b);
  }

  lemma Encode3(a: nat, b: nat, c: nat)
    requires a < 16 && b < 64 && c < 64 && (a == 0 ==> b >= 32) && (a == 13 ==> b < 32)
    ensures Scalar(Value3(a, b, c)) && Encode(Value3(a, b, c)) == [0xE0 + a, 0x80 + b, 0x80 + c]
  {
    Groups(Value2(a, b), c);
    Groups(a, b);
    Quotients(Value3(a, b, c));
  }

  lemma Encode4(a: nat, b: nat, c: nat, d: nat)
    requires a <= 4 && b < 64 && c < 64 && d < 64 && (a == 0 ==> b >= 16) && (a == 4 ==> b < 16)
    ensures Scalar(Value4(a, b, c, d)) && Encode(Value4(a, b, c, d)) == [0xF0 + a, 0x80 + b, 0x80 + c, 0x80 + d]
  {
    Groups(Value3(a, b, c), d);
    Groups(Value2(a, b), c);
    Groups(a, b);
    Quotients(Value4(a, b, c, d));
  }

  lemma ValueEncodes(s: Bytes, n: nat)
    requires n == CharLength(s) > 0
    ensures Scalar(Value(s, n)) && Encode(Value(s, n)) == s[..n]
  {
    if n == 2 {
      Encode2(s[0] - 0xC0, s[1] - 0x80);
    } else if n == 3 {
      Encode3(s[0] - 0xE0, s[1] - 0x80, s[2] - 0x80);
    } else if n == 4 {
      Encode4(s[0] - 0xF0, s[1] - 0x80, s[2] - 0x80, s[3] - 0x80);
    }
  }

  lemma {:induction false} EncodingsPass(cs: seq<nat>)
    requires Scalars(cs)
    ensures WellFormed(EncodeAll(cs))
  {
    if cs != [] {
      EncodedStarts(cs[0], EncodeAll(cs[1..]));
      EncodingsPass(cs[1..]);
      assert (Encode(cs[0]) + EncodeAll(cs[1..]))[|Encode(cs[0])|..] == EncodeAll(cs[1..]);
    }
  }

  lemma {:induction false} PassingDecodes(s: Bytes) returns (cs: seq<nat>)
    requires WellFormed(s)
    ensures Scalars(cs) && EncodeAll(cs) == s
    decreases |s|
  {
    if s == [] {
      cs := [];
    } else {
      var n := CharLength(s);
      ValueEncodes(s, n);
      var rest := PassingDecodes(s[n..]);
      cs := [Value(s, n)] + rest;
      assert cs[1..] == rest && s == s[..n] + s[n..];
    }
  }

  lemma WellFormedIsText(s: Bytes)
    ensures WellFormed(s) <==> Text(s)
  {
    if WellFormed(s) {
      var cs := PassingDecodes(s);
    } else if Text(s) {
      var cs :| Scalars(cs) && EncodeAll(cs) == s;
      EncodingsPass(cs);
    }
  }
}
