/** The TPM's signature as the TKey wants it: two numbers, each padded on the left to 32
    bytes, because the TPM may drop leading zeros. */
module Padding {
  import opened Bytes
  import HM = HostMachine

  function Pow256(k: nat): (r: nat)
    ensures r > 0
  {
    if k == 0 then 1 else 256 * Pow256(k - 1)
  }

  /** The number that a byte string stands for, most significant byte first
      (section 2.3.8 of SEC 1). */
  function Value(b: bytes): nat {
    if b == [] then 0 else 256 * Value(b[..|b| - 1]) + b[|b| - 1]
  }

  /** The byte string of a given length that stands for a number (section 2.3.7 of SEC 1). */
  function Octets(x: nat, len: nat): (r: bytes)
    ensures |r| == len
  {
    if len == 0 then [] else Octets(x / 256, len - 1) + [x % 256]
  }

  function Padded(b: bytes, len: nat): (r: bytes)
    requires |b| <= len
    ensures |r| == len
  {
    Zeros(len - |b|) + b
  }

  function Stripped(b: bytes): (r: bytes)
    ensures r == [] || r[0] != 0
  {
    if b != [] && b[0] == 0 then Stripped(b[1..]) else b
  }

  lemma {:induction false} ValueFits(b: bytes)
    ensures Value(b) < Pow256(|b|)
  {
    if b != [] {
      ValueFits(b[..|b| - 1]);
    }
  }

  /** The bytes are the only ones of their length with their value. */
  lemma {:induction false} OctetsOfValue(b: bytes)
    ensures Octets(Value(b), |b|) == b
  {
    if b != [] {
      var front, last := b[..|b| - 1], b[|b| - 1];
      OctetsOfValue(front);
      assert Value(b) / 256 == Value(front) && Value(b) % 256 == last;
      assert front + [last] == b;
    }
  }

  lemma {:induction false} ValueOfOctets(x: nat, len: nat)
    requires x < Pow256(len)
    ensures Value(Octets(x, len)) == x
  {
    if len > 0 {
      ValueOfOctets(x / 256, len - 1);
      assert Octets(x, len)[..len - 1] == Octets(x / 256, len - 1);
    }
  }

  lemma {:induction false} PaddingKeepsValue(b: bytes, len: nat)
    requires |b| <= len
    ensures Value(Padded(b, len)) == Value(b)
    decreases |b|, len
  {
    var p := Padded(b, len);
    if b != [] {
      PaddingKeepsValue(b[..|b| - 1], len - 1);
      assert p[..len - 1] == Padded(b[..|b| - 1], len - 1);
    } else if len > 0 {
      PaddingKeepsValue(b, len - 1);
      assert p[..len - 1] == Padded(b, len - 1);
    }
  }

  lemma {:induction false} StrippingKeepsValue(b: bytes)
    ensures Value(Stripped(b)) == Value(b) && |Stripped(b)| <= |b|
  {
    if b != [] && b[0] == 0 {
      StrippingKeepsValue(b[1..]);
      assert Padded(b[1..], |b|) == b;
      PaddingKeepsValue(b[1..], |b|);
    }
  }

  /** Padding writes the number in full length; it depends on nothing but the number. */
  lemma PaddingIsOctets(b: bytes, len: nat)
    requires |b| <= len
    ensures Padded(b, len) == Octets(Value(b), len)
  {
    PaddingKeepsValue(b, len);
    OctetsOfValue(Padded(b, len));
  }

  /** However many leading zeros were dropped, padding restores them. */
  lemma PaddingRestores(b: bytes, dropped: bytes)
    requires |dropped| <= |b| && Value(dropped) == Value(b)
    ensures Padded(dropped, |b|) == b
  {
    PaddingIsOctets(dropped, |b|);
    OctetsOfValue(b);
  }

  lemma PaddingInvertsStripping(b: bytes)
    ensures |Stripped(b)| <= |b| && Padded(Stripped(b), |b|) == b
  {
    StrippingKeepsValue(b);
    PaddingRestores(b, Stripped(b));
  }

  /** The 64 bytes for the TKey, or a refusal of numbers that are too long. */
  function SignatureBytes(r: bytes, s: bytes): HM.Option<bytes> {
    if |r| > 32 || |s| > 32 then HM.None else HM.Some(Padded(r, 32) + Padded(s, 32))
  }

  /** A signature is passed on as it was made, whichever leading zeros the TPM dropped. */
  lemma SignatureSurvives(sig: bytes, r: bytes, s: bytes)
    requires |sig| == 64 && |r| <= 32 && |s| <= 32
    ensures SignatureBytes(r, s) == HM.Some(sig) <==> Value(r) == Value(sig[..32]) && Value(s) == Value(sig[32..])
  {
    var a, b := Padded(r, 32), Padded(s, 32);
    PaddingKeepsValue(r, 32);
    PaddingKeepsValue(s, 32);
    assert (a + b)[..32] == a && (a + b)[32..] == b && sig == sig[..32] + sig[32..];
    if Value(r) == Value(sig[..32]) && Value(s) == Value(sig[32..]) {
      PaddingRestores(sig[..32], r);
      PaddingRestores(sig[32..], s);
    }
  }

  /** Whatever two numbers below 2^256 the TPM signs with, and however short it writes them, the
      64 bytes are their full-length octet strings, from which the numbers are read back. */
  lemma NumbersSurvive(x: nat, y: nat, r: bytes, s: bytes)
    requires |r| <= 32 && |s| <= 32 && Value(r) == x && Value(s) == y
    ensures x < Pow256(32) && y < Pow256(32)
    ensures SignatureBytes(r, s) == HM.Some(Octets(x, 32) + Octets(y, 32))
    ensures Value(Octets(x, 32)) == x && Value(Octets(y, 32)) == y
  {
    PaddingKeepsValue(r, 32);
    PaddingKeepsValue(s, 32);
    ValueFits(Padded(r, 32));
    ValueFits(Padded(s, 32));
    PaddingIsOctets(r, 32);
    PaddingIsOctets(s, 32);
    ValueOfOctets(x, 32);
    ValueOfOctets(y, 32);
  }

  /** The end of `verify`: both numbers are copied to the ends of their slots. */
  method PadSignature(r: bytes, s: bytes) returns (sig: HM.Option<bytes>)
    ensures sig.None? <==> |r| > 32 || |s| > 32
    ensures sig.Some? ==>
      && |sig.value| == 64
      && Value(sig.value[..32]) == Value(r)
      && Value(sig.value[32..]) == Value(s)
    ensures sig == SignatureBytes(r, s)
  {
    if |r| > 32 || |s| > 32 {
      return HM.None;
    }
    var sigBytes := new byte[64](_ => 0);
    forall i | 0 <= i < |r| {
      sigBytes[32 - |r| + i] := r[i];
    }
    forall i | 0 <= i < |s| {
      sigBytes[64 - |s| + i] := s[i];
    }
    assert sigBytes[..32] == Padded(r, 32);
    assert sigBytes[32..] == Padded(s, 32);
    assert sigBytes[..] == sigBytes[..32] + sigBytes[32..];
    PaddingKeepsValue(r, 32);
    PaddingKeepsValue(s, 32);
    return HM.Some(sigBytes[..]);
  }
}
