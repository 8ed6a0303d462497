/** Bytes, byte strings and the exclusive-or that the stream cipher is built on. */
module Bytes {

  type byte = x: int | 0 <= x < 256
  type bytes = seq<byte>

  function Zeros(n: nat): (r: bytes)
    ensures |r| == n
    ensures forall i | 0 <= i < n :: r[i] == 0
  {
    seq(n, _ => 0)
  }

  function Pow2(k: nat): nat {
    if k == 0 then 1 else 2 * Pow2(k - 1)
  }

  function Bit(a: nat, b: nat): (r: nat)
    requires a < 2 && b < 2
    ensures r < 2
  {
    if a == b then 0 else 1
  }

  /** Bitwise exclusive-or of the low `k` bits of `a` and `b`. */
  function XorBits(k: nat, a: nat, b: nat): (r: nat)
    ensures r < Pow2(k)
  {
    if k == 0 then 0 else Bit(a % 2, b % 2) + 2 * XorBits(k - 1, a / 2, b / 2)
  }

  function Xor(a: byte, b: byte): byte {
    assert Pow2(8) == 256;
    XorBits(8, a, b)
  }

  lemma {:induction false} XorBitsCancels(k: nat, a: nat, b: nat)
    requires a < Pow2(k)
    ensures XorBits(k, XorBits(k, a, b), b) == a
  {
    if k > 0 {
      var bit, high := Bit(a % 2, b % 2), XorBits(k - 1, a / 2, b / 2);
      assert XorBits(k, a, b) == bit + 2 * high;
      assert (bit + 2 * high) / 2 == high && (bit + 2 * high) % 2 == bit;
      XorBitsCancels(k - 1, a / 2, b / 2);
      assert XorBits(k, bit + 2 * high, b) == Bit(bit, b % 2) + 2 * (a / 2);
    }
  }

  /** Bit `i`, counted from the lowest. */
  function BitAt(a: nat, i: nat): nat {
    if i == 0 then a % 2 else BitAt(a / 2, i - 1)
  }

  lemma {:induction false} XorBitsBitwise(k: nat, a: nat, b: nat, i: nat)
    requires i < k
    ensures BitAt(XorBits(k, a, b), i) == (BitAt(a, i) + BitAt(b, i)) % 2
  {
    var bit, high := Bit(a % 2, b % 2), XorBits(k - 1, a / 2, b / 2);
    assert (bit + 2 * high) / 2 == high && (bit + 2 * high) % 2 == bit;
    if i > 0 {
      XorBitsBitwise(k - 1, a / 2, b / 2, i - 1);
    }
  }

  /** Every bit of the result is the sum of the two bits. */
  lemma XorIsBitwise(a: byte, b: byte, i: nat)
    requires i < 8
    ensures BitAt(Xor(a, b), i) == (BitAt(a, i) + BitAt(b, i)) % 2
  {
    XorBitsBitwise(8, a, b, i);
  }

  /** Combining twice with the same key byte gives the byte back. */
  lemma XorCancels(a: byte, b: byte)
    ensures Xor(Xor(a, b), b) == a
  {
    assert Pow2(8) == 256;
    XorBitsCancels(8, a, b);
  }

  /** A read that took `|a|` bytes from a stream beginning with `a` took exactly `a`. */
  lemma Aligned(got: bytes, rest: bytes, a: bytes, b: bytes)
    requires got + rest == a + b && |got| == |a|
    ensures got == a && rest == b
  {
    assert got == (got + rest)[..|a|] == a;
    assert rest == (got + rest)[|a|..] == b;
  }

  lemma Regroup(a: bytes, b: bytes, c: bytes)
    ensures a + (b + c) == (a + b) + c
  {
  }
}
