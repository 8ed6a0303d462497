/** The 108 bytes that the TPM signs: nonce, host key, TKey key, encryption nonce. */
module Challenge {
  import opened Bytes

  function Layout(nonce: bytes, hostPub: bytes, tkeyPub: bytes, encNonce: bytes): bytes {
    nonce + hostPub + tkeyPub + encNonce
  }

  /** No two different handshakes have the same challenge. */
  lemma LayoutIsInjective(
    n: bytes, h: bytes, t: bytes, e: bytes,
    n': bytes, h': bytes, t': bytes, e': bytes)
    requires |n| == |n'| && |h| == |h'| && |t| == |t'|
    requires Layout(n, h, t, e) == Layout(n', h', t', e')
    ensures n == n' && h == h' && t == t' && e == e'
  {
    Aligned(n + h + t, e, n' + h' + t', e');
    Aligned(n + h, t, n' + h', t');
    Aligned(n, h, n', h');
  }

  /** Which bytes stand where. */
  predicate InPlace(challenge: bytes, nonce: bytes, hostPub: bytes, tkeyPub: bytes, encNonce: bytes) {
    && |challenge| == 108
    && challenge[..32] == nonce && challenge[32..64] == hostPub
    && challenge[64..96] == tkeyPub && challenge[96..] == encNonce
  }

  /** The layout is the 108 bytes with the nonce first, then the host's key, then the TKey's, then
      the encryption nonce; and nothing else is. */
  lemma LayoutIsInPlace(challenge: bytes, nonce: bytes, hostPub: bytes, tkeyPub: bytes, encNonce: bytes)
    requires |nonce| == |hostPub| == |tkeyPub| == 32 && |encNonce| == 12
    ensures challenge == Layout(nonce, hostPub, tkeyPub, encNonce) <==>
              InPlace(challenge, nonce, hostPub, tkeyPub, encNonce)
  {
    var layout := Layout(nonce, hostPub, tkeyPub, encNonce);
    assert InPlace(layout, nonce, hostPub, tkeyPub, encNonce);
    if InPlace(challenge, nonce, hostPub, tkeyPub, encNonce) {
      assert challenge == challenge[..32] + challenge[32..64] + challenge[64..96] + challenge[96..];
    }
  }

  /** Assembles the challenge with four slice copies, as both programs do. */
  method Build(nonce: array<byte>, hostPub: array<byte>, tkeyPub: array<byte>, encNonce: array<byte>)
    returns (challenge: array<byte>)
    requires nonce.Length == hostPub.Length == tkeyPub.Length == 32 && encNonce.Length == 12
    ensures fresh(challenge)
    ensures challenge.Length == 108
    ensures challenge[..32] == nonce[..] && challenge[32..64] == hostPub[..]
    ensures challenge[64..96] == tkeyPub[..] && challenge[96..] == encNonce[..]
    ensures challenge[..] == Layout(nonce[..], hostPub[..], tkeyPub[..], encNonce[..])
  {
    challenge := new byte[108](_ => 0);
    forall i | 0 <= i < 32 { challenge[i] := nonce[i]; }
    forall i | 32 <= i < 64 { challenge[i] := hostPub[i - 32]; }
    forall i | 64 <= i < 96 { challenge[i] := tkeyPub[i - 64]; }
    forall i | 96 <= i < 108 { challenge[i] := encNonce[i - 96]; }
    assert challenge[..32] == nonce[..];
    assert challenge[32..64] == hostPub[..];
    assert challenge[64..96] == tkeyPub[..];
    assert challenge[96..108] == encNonce[..];
    assert challenge[..] == challenge[..32] + challenge[32..64] + challenge[64..96] + challenge[96..108];
  }
}
