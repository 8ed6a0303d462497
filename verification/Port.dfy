/** A serial port or pipe as one program sees it, and buffers that are wiped. */
module Port {
  import opened Bytes

  /** `incoming` is everything the other side has sent or will ever send; a read that asks
      for more never returns, which the caller sees as `false`. */
  class Port {
    var incoming: bytes
    var outgoing: bytes

    constructor (incoming: bytes)
      ensures this.incoming == incoming && outgoing == []
    {
      this.incoming, outgoing := incoming, [];
    }

    /** One byte after the other, as `write_u8_slice`. */
    method WriteAll(data: bytes)
      modifies this`outgoing
      ensures outgoing == old(outgoing) + data
    {
      var i := 0;
      while i < |data|
        invariant 0 <= i <= |data|
        invariant outgoing == old(outgoing) + data[..i]
      {
        outgoing := outgoing + [data[i]];
        i := i + 1;
      }
      assert data[..i] == data;
    }

    method ReadExact(buf: array<byte>) returns (ok: bool)
      modifies this`incoming, buf
      ensures ok <==> buf.Length <= |old(incoming)|
      ensures ok ==> buf[..] == old(incoming)[..buf.Length] && incoming == old(incoming)[buf.Length..]
      ensures !ok ==> incoming == old(incoming) && buf[..] == old(buf[..])
    {
      if |incoming| < buf.Length {
        return false;
      }
      var i := 0;
      while i < buf.Length
        invariant 0 <= i <= buf.Length
        invariant buf[..i] == old(incoming)[..i]
        invariant incoming == old(incoming)[i..]
      {
        buf[i] := incoming[0];
        incoming := incoming[1..];
        i := i + 1;
      }
      assert buf[..] == buf[..i];
      return true;
    }
  }

  predicate IsZero(a: array<byte>)
    reads a
  {
    forall i | 0 <= i < a.Length :: a[i] == 0
  }

  method Zeroize(a: array<byte>)
    modifies a
    ensures IsZero(a)
  {
    for i := 0 to a.Length
      invariant forall j | 0 <= j < i :: a[j] == 0
    {
      a[i] := 0;
    }
  }

  /** Copies bytes into a buffer of the same length. */
  method Fill(a: array<byte>, data: bytes)
    requires a.Length == |data|
    modifies a
    ensures a[..] == data
  {
    for i := 0 to a.Length
      invariant a[..i] == data[..i]
    {
      a[i] := data[i];
    }
    assert a[..] == a[..a.Length] && data == data[..|data|];
  }
}
