/**
 Bytes as they travel on a socket: masking by exclusive or, big-endian lengths and the
 position of a marker inside a byte string.
 */
module WireBytes {
  import opened Wrappers

  type byte = x: int | 0 <= x < 256

  /** Exclusive or of the `bits` low bits, bit by bit. */
  function XorBits(a: nat, b: nat, bits: nat): (r: nat)
    ensures r < Pow2(bits)
  {
    if bits == 0 then 0 else 2 * XorBits(a / 2, b / 2, bits - 1) + (if a % 2 == b % 2 then 0 else 1)
  }

  function Pow2(bits: nat): nat {
    if bits == 0 then 1 else 2 * Pow2(bits - 1)
  }

  function Xor(a: byte, b: byte): byte {
    assert Pow2(8) == 2 * (2 * (2 * (2 * (2 * (2 * (2 * 2))))));
    XorBits(a, b, 8)
  }

  lemma {:induction false} XorBitsInvolutive(a: nat, b: nat, bits: nat)
    requires a < Pow2(bits)
    ensures XorBits(XorBits(a, b, bits), b, bits) == a
  {
    if bits > 0 {
      var x := XorBits(a / 2, b / 2, bits - 1);
      var bit := if a % 2 == b % 2 then 0 else 1;
      var r := XorBits(a, b, bits);
      assert r == 2 * x + bit && r / 2 == x && r % 2 == bit;
      XorBitsInvolutive(a / 2, b / 2, bits - 1);
      assert XorBits(r, b, bits) == 2 * XorBits(x, b / 2, bits - 1) + (if bit == b % 2 then 0 else 1);
    }
  }

  lemma {:induction false} XorInvolutive(a: byte, b: byte)
    ensures Xor(Xor(a, b), b) == a
  {
    assert Pow2(8) == 2 * (2 * (2 * (2 * (2 * (2 * (2 * 2))))));
    XorBitsInvolutive(a, b, 8);
  }

  function Pow256(width: nat): nat {
    if width == 0 then 1 else 256 * Pow256(width - 1)
  }

  lemma {:induction false} Pow256Values()
    ensures Pow256(2) == 0x1_0000 && Pow256(8) == 0x1_0000_0000_0000_0000
  {
    assert Pow256(4) == 0x1_0000_0000;
  }

  function BigEndian(n: nat, width: nat): (s: seq<byte>)
    ensures |s| == width
  {
    if width == 0 then [] else BigEndian(n / 256, width - 1) + [n % 256]
  }

  function FromBigEndian(s: seq<byte>): nat {
    if s == [] then 0 else FromBigEndian(s[..|s| - 1]) * 256 + s[|s| - 1]
  }

  lemma {:induction false} BigEndianRoundTrip(n: nat, width: nat)
    requires n < Pow256(width)
    ensures FromBigEndian(BigEndian(n, width)) == n
  {
    if width > 0 {
      BigEndianRoundTrip(n / 256, width - 1);
      var s := BigEndian(n, width);
      assert s[..|s| - 1] == BigEndian(n / 256, width - 1);
    }
  }

  /** A payload under a four-byte mask, section 5.3 of RFC 6455. */
  function Masked(payload: seq<byte>, mask: seq<byte>): (r: seq<byte>)
    requires |mask| == 4
    ensures |r| == |payload|
  {
    seq(|payload|, i requires 0 <= i < |payload| => Xor(payload[i], mask[i % 4]))
  }

  lemma {:induction false} MaskedInvolutive(payload: seq<byte>, mask: seq<byte>)
    requires |mask| == 4
    ensures Masked(Masked(payload, mask), mask) == payload
  {
    forall i | 0 <= i < |payload|
      ensures Masked(Masked(payload, mask), mask)[i] == payload[i]
    {
      XorInvolutive(payload[i], mask[i % 4]);
    }
  }

  /** The `k`-th bit, the lowest one first. */
  function Bit(n: nat, k: nat): nat {
    if k == 0 then n % 2 else Bit(n / 2, k - 1)
  }

  lemma {:induction false} BitIsOneOrZero(n: nat, k: nat)
    ensures Bit(n, k) == 0 || Bit(n, k) == 1
  {
    if k > 0 {
      BitIsOneOrZero(n / 2, k - 1);
    }
  }

  lemma {:induction false} XorBitsAt(a: nat, b: nat, bits: nat, k: nat)
    requires k < bits
    ensures Bit(XorBits(a, b, bits), k) == if Bit(a, k) == Bit(b, k) then 0 else 1
  {
    var x := XorBits(a / 2, b / 2, bits - 1);
    var bit := if a % 2 == b % 2 then 0 else 1;
    assert XorBits(a, b, bits) == 2 * x + bit;
    assert (2 * x + bit) % 2 == bit && (2 * x + bit) / 2 == x;
    if k > 0 {
      XorBitsAt(a / 2, b / 2, bits - 1, k - 1);
    }
  }

  /** Section 5.3 of RFC 6455, bit by bit: a bit is flipped exactly where the mask has a one. */
  lemma {:induction false} MaskedBits(payload: seq<byte>, mask: seq<byte>, i: nat, k: nat)
    requires |mask| == 4 && i < |payload| && k < 8
    ensures Bit(Masked(payload, mask)[i], k) == if Bit(payload[i], k) == Bit(mask[i % 4], k) then 0 else 1
  {
    XorBitsAt(payload[i], mask[i % 4], 8, k);
  }

  /** `marker` stands at position `i` of `s`. */
  predicate OccursAt(s: seq<byte>, marker: seq<byte>, i: nat) {
    i + |marker| <= |s| && s[i..i + |marker|] == marker
  }

  /** `i` is the leftmost position of `marker` in `s`. */
  ghost predicate IsFirst(s: seq<byte>, marker: seq<byte>, i: nat) {
    OccursAt(s, marker, i) && forall j: nat | j < i :: !OccursAt(s, marker, j)
  }

  ghost predicate Contains(s: seq<byte>, marker: seq<byte>) {
    exists i: nat :: OccursAt(s, marker, i)
  }

  lemma {:induction false} OccursInPrefix(s: seq<byte>, rest: seq<byte>, marker: seq<byte>, i: nat)
    requires i + |marker| <= |s|
    ensures OccursAt(s, marker, i) <==> OccursAt(s + rest, marker, i)
  {
    assert (s + rest)[i..i + |marker|] == s[i..i + |marker|];
  }

  /** Leftmost occurrence at or after `from`. */
  function Find(s: seq<byte>, marker: seq<byte>, from: nat := 0): (r: Option<nat>)
    requires from <= |s| + 1
    ensures r.Some? ==> from <= r.value && OccursAt(s, marker, r.value)
    ensures r.Some? ==> forall j: nat | from <= j < r.value :: !OccursAt(s, marker, j)
    ensures r.None? ==> forall j: nat | from <= j :: !OccursAt(s, marker, j)
    decreases |s| + 1 - from
  {
    if from + |marker| > |s| then None
    else if OccursAt(s, marker, from) then Some(from)
    else Find(s, marker, from + 1)
  }
}
