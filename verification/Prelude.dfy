/** Shared vocabulary: options, bytes, and the two facts about flattening a
    queue of byte chunks that every conservation proof uses. */
module Prelude {
  datatype Option<+T> = None | Some(value: T)

  type byte = b: int | 0 <= b < 256

  type Bytes = seq<byte>

  function Min(a: nat, b: nat): nat {
    if a < b then a else b
  }

  /** The bytes of a queue of chunks, head first. */
  function Flatten(chunks: seq<Bytes>): Bytes {
    if chunks == [] then [] else chunks[0] + Flatten(chunks[1..])
  }

  lemma Assoc<T>(a: seq<T>, b: seq<T>, c: seq<T>)
    ensures a + b + c == a + (b + c)
  {
  }

  lemma FrontOfConcat<T>(a: seq<T>, b: seq<T>)
    requires a != []
    ensures (a + b)[0] == a[0] && (a + b)[1..] == a[1..] + b
  {
  }

  lemma LastOff<T>(a: seq<T>)
    requires a != []
    ensures a == a[..|a| - 1] + [a[|a| - 1]]
  {
  }

  lemma Prefix<T>(a: seq<T>, b: seq<T>, n: nat)
    requires n <= |a + b|
    ensures (a + b)[..n] == if n <= |a| then a[..n] else a + b[..n - |a|]
    ensures n == |a| ==> (a + b)[..n] == a && (a + b)[n..] == b
  {
  }

  lemma {:induction false} FlattenConcat(a: seq<Bytes>, b: seq<Bytes>)
    ensures Flatten(a + b) == Flatten(a) + Flatten(b)
  {
    if a == [] {
      assert a + b == b;
    } else {
      FrontOfConcat(a, b);
      FlattenConcat(a[1..], b);
      Assoc(a[0], Flatten(a[1..]), Flatten(b));
    }
  }

  lemma FlattenOne(c: Bytes)
    ensures Flatten([c]) == c
  {
    assert Flatten([c]) == c + Flatten([]);
  }
}
