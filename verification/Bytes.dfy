/** The bytes of the serial line and the character codes both framers look for. */
module Bytes {
  type Byte = b: int | 0 <= b < 256

  const CR: Byte := 13
  const LF: Byte := 10
  const TILDE: Byte := 126
  const COMMA: Byte := 44
  const HASH: Byte := 35
  const BANG: Byte := 33
  const STAR: Byte := 42

  /** The high bit marks the first byte of a binary packet. */
  predicate IsHeader(b: Byte) {
    128 <= b
  }

  predicate IsNewline(b: Byte) {
    b == CR || b == LF
  }

  /** One header byte followed by low bytes only. */
  predicate WellFormed(p: seq<Byte>) {
    p != [] && IsHeader(p[0]) && forall k :: 0 < k < |p| ==> !IsHeader(p[k])
  }

  function Flatten<T>(parts: seq<seq<T>>): (s: seq<T>) {
    if parts == [] then [] else Flatten(parts[..|parts| - 1]) + parts[|parts| - 1]
  }

  lemma {:induction false} FlattenNext<T>(parts: seq<seq<T>>, n: nat)
    requires n < |parts|
    ensures Flatten(parts[..n + 1]) == Flatten(parts[..n]) + parts[n]
  {
    assert parts[..n + 1][..n] == parts[..n];
  }

  lemma {:induction false} FlattenConcat<T>(a: seq<seq<T>>, b: seq<seq<T>>)
    ensures Flatten(a + b) == Flatten(a) + Flatten(b)
    decreases |b|
  {
    if b == [] {
      assert a + b == a;
    } else {
      var b0 := b[..|b| - 1];
      assert (a + b)[..|a + b| - 1] == a + b0;
      FlattenConcat(a, b0);
    }
  }
}
