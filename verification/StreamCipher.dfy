/** ChaCha20 as both programs use it: one keystream position that every call advances,
    whichever direction the data is travelling. */
module StreamCipher {
  import opened Bytes
  import opened Primitives

  /** `data` combined with the keystream bytes from position `pos` on. */
  function Apply(p: Primitives, key: bytes, nonce: bytes, pos: nat, data: bytes): (r: bytes)
    ensures |r| == |data|
    ensures forall i | 0 <= i < |data| :: r[i] == Xor(data[i], p.keystream(key, nonce, pos + i))
  {
    seq(|data|, i requires 0 <= i < |data| => Xor(data[i], p.keystream(key, nonce, pos + i)))
  }

  /** Two ciphers at the same position undo each other. */
  lemma ApplyTwice(p: Primitives, key: bytes, nonce: bytes, pos: nat, data: bytes)
    ensures Apply(p, key, nonce, pos, Apply(p, key, nonce, pos, data)) == data
  {
    var once := Apply(p, key, nonce, pos, data);
    forall i | 0 <= i < |data| ensures Apply(p, key, nonce, pos, once)[i] == data[i] {
      XorCancels(data[i], p.keystream(key, nonce, pos + i));
    }
  }

  class ChaCha20 {
    const p: Primitives
    const key: bytes
    const nonce: bytes
    var position: nat

    constructor (p: Primitives, key: bytes, nonce: bytes)
      ensures this.p == p && this.key == key && this.nonce == nonce && position == 0
    {
      this.p, this.key, this.nonce, position := p, key, nonce, 0;
    }

    /** In place, as `apply_keystream`. */
    method ApplyKeystream(buf: array<byte>)
      modifies this, buf
      ensures buf[..] == Apply(p, key, nonce, old(position), old(buf[..]))
      ensures position == old(position) + buf.Length
    {
      ghost var before := buf[..];
      ghost var start := position;
      var i := 0;
      while i < buf.Length
        invariant 0 <= i <= buf.Length && position == start + i
        invariant buf[..i] == Apply(p, key, nonce, start, before)[..i]
        invariant buf[i..] == before[i..]
      {
        assert buf[i] == before[i] by { assert buf[i..][0] == before[i..][0]; }
        buf[i] := Xor(buf[i], p.keystream(key, nonce, position));
        position := position + 1;
        i := i + 1;
      }
      assert buf[..] == buf[..i];
    }

    /** Buffer to buffer, as `apply_keystream_b2b`. */
    method ApplyKeystreamB2b(src: array<byte>, dst: array<byte>)
      requires src.Length == dst.Length && src != dst
      modifies this, dst
      ensures dst[..] == Apply(p, key, nonce, old(position), src[..])
      ensures position == old(position) + src.Length
    {
      ghost var start := position;
      var i := 0;
      while i < src.Length
        invariant 0 <= i <= src.Length && position == start + i
        invariant dst[..i] == Apply(p, key, nonce, start, src[..])[..i]
      {
        dst[i] := Xor(src[i], p.keystream(key, nonce, position));
        position := position + 1;
        i := i + 1;
      }
      assert dst[..] == dst[..i];
    }
  }
}
