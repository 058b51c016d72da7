/** The ways a byte stream can arrive: cut into non-empty chunks of at most a given size. */
module Deliveries {
  import opened WireBytes

  function Flat(chunks: seq<seq<byte>>): seq<byte> {
    if chunks == [] then [] else chunks[0] + Flat(chunks[1..])
  }

  /** Chunks as a read of at most `most` bytes delivers them before the end. */
  predicate Readable(chunks: seq<seq<byte>>, most: nat) {
    forall i | 0 <= i < |chunks| :: 0 < |chunks[i]| <= most
  }

  /** One byte at a time. */
  function Drip(s: seq<byte>): (chunks: seq<seq<byte>>)
    ensures Readable(chunks, 1) && |chunks| == |s| && Flat(chunks) == s
  {
    if s == [] then [] else [[s[0]]] + Drip(s[1..])
  }

  lemma {:induction false} FlatFirst(chunk: seq<byte>, rest: seq<seq<byte>>)
    ensures ([chunk] + rest)[0] == chunk && ([chunk] + rest)[1..] == rest
    ensures Flat([chunk] + rest) == chunk + Flat(rest)
  {
    assert ([chunk] + rest)[1..] == rest;
  }

  lemma {:induction false} FlatAppend(a: seq<seq<byte>>, b: seq<seq<byte>>)
    ensures Flat(a + b) == Flat(a) + Flat(b)
  {
    if a == [] {
      assert a + b == b;
    } else {
      assert a + b == [a[0]] + (a[1..] + b);
      FlatFirst(a[0], a[1..] + b);
      FlatAppend(a[1..], b);
    }
  }

  lemma {:induction false} FlatOne(chunk: seq<byte>)
    ensures Flat([chunk]) == chunk
  {
    assert [chunk] == [chunk] + [];
    FlatFirst(chunk, []);
  }

  lemma {:induction false} FlatSnoc(chunks: seq<seq<byte>>, chunk: seq<byte>)
    ensures Flat(chunks + [chunk]) == Flat(chunks) + chunk
  {
    FlatAppend(chunks, [chunk]);
    FlatOne(chunk);
  }

  /** `head` byte by byte, `chunk` at once, and `tail` byte by byte. */
  lemma {:induction false} Crossing(head: seq<byte>, chunk: seq<byte>, tail: seq<byte>, most: nat)
    requires 0 < |chunk| <= most
    ensures var chunks := Drip(head) + ([chunk] + Drip(tail));
            Readable(chunks, most) && Flat(chunks) == head + (chunk + tail)
  {
    FlatAppend(Drip(head), [chunk] + Drip(tail));
    FlatFirst(chunk, Drip(tail));
  }
}
