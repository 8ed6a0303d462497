/** All that can be seen of the TKey from outside, for any input at all: the bytes it writes, by
    value and place, the light it asks for a touch with, the light it shows, and how long it
    sleeps.  Written from the wire's point of view, with no states in it. */
module ClientTranscript {
  import opened Bytes
  import opened Primitives
  import opened StreamCipher
  import CM = ClientMachine

  datatype Stop = Reads(n: nat) | Panics | Finishes

  /** `gate` is the light while a touch is waited for (off if none is), `led` the one at the end,
      `rest` what is left of the input. */
  datatype Seen = Seen(out: bytes, gate: CM.Led, led: CM.Led, slept: nat, rest: bytes, stop: Stop)

  /** What the handshake has settled. */
  datatype Settled = Settled(hostPub: bytes, gate: CM.Led, led: CM.Led)

  function Device(p: Primitives, e: CM.ClientEnv, input: bytes): Seen {
    var greeting := e.nonce + e.encNonce + p.pub(e.secret);
    if |input| < 32 then Seen(greeting, CM.LedOff, CM.LedOff, 0, input, Reads(32))
    else if !e.pubkeyOk then Seen(greeting + [0x14], CM.LedOff, CM.LedOff, 0, input[32..], Panics)
    else Verdict(p, e, input[..32], input[32..], greeting)
  }

  /** The signature, if one is announced, on the four parts of the challenge in their order. */
  function Verdict(p: Primitives, e: CM.ClientEnv, hostPub: bytes, input: bytes, out: bytes): Seen {
    if input == [] then Seen(out, CM.LedOff, CM.LedOff, 0, input, Reads(1))
    else if input[0] != 0x97 then Gate(p, e, hostPub, CM.LedYellow, input[1..], out + [0x13])
    else if |input| < 65 then Seen(out, CM.LedOff, CM.LedOff, 0, input[1..], Reads(64))
    else
      match p.checkSig(e.nonce + hostPub + p.pub(e.secret) + e.encNonce, input[1..65])
      case Malformed => Seen(out + [0x12], CM.LedOff, CM.LedOff, 0, input[65..], Panics)
      case Invalid => Gate(p, e, hostPub, CM.LedPurple, input[65..], out + [0x13])
      case Genuine => Attempts(p, e, Settled(hostPub, CM.LedOff, CM.LedGreen), 1, 0, input[65..], out + [0x20])
  }

  function Gate(p: Primitives, e: CM.ClientEnv, hostPub: bytes, color: CM.Led, input: bytes, out: bytes): Seen {
    if e.touch then Attempts(p, e, Settled(hostPub, color, color), 1, 0, input, out)
    else Seen(out, color, CM.LedOff, 0, input, Panics)
  }

  /** Attempt `k`, with `pos` bytes of keystream used. */
  function Attempts(p: Primitives, e: CM.ClientEnv, s: Settled, k: nat, pos: nat, input: bytes, out: bytes): Seen
    requires k >= 1
    decreases 4 - k, 2
  {
    if k > 3 then Seen(out, s.gate, s.led, 3 * (k - 1), input, Panics)
    else if |input| < 32 then Seen(out + [0x22], s.gate, s.led, 3 * (k - 1), input, Reads(32))
    else Derive(p, e, s, k, pos, input[..32], input[32..], out + [0x22])
  }

  /** The keyfile of the hash that came encrypted, if the hash call does not fail. */
  function Derive(
    p: Primitives, e: CM.ClientEnv, s: Settled, k: nat, pos: nat, got: bytes, rest: bytes, out: bytes): Seen
    requires 1 <= k <= 3
    decreases 4 - k, 1
  {
    var shared := p.dh(e.secret, s.hostPub);
    var hash := Apply(p, shared, e.encNonce, pos, got);
    if e.blakeFails(k) then Attempts(p, e, s, k + 1, pos + 32, rest, out + [0x10])
    else
      var keyfile := Apply(p, shared, e.encNonce, pos + 32, p.blake2s(e.cdi, hash));
      Replied(p, e, s, k, pos + 64, rest, out + ([0x21] + keyfile))
  }

  /** The host's word on it. */
  function Replied(p: Primitives, e: CM.ClientEnv, s: Settled, k: nat, pos: nat, rest: bytes, out: bytes): Seen
    requires 1 <= k <= 3
    decreases 4 - k, 0
  {
    if rest == [] then Seen(out, s.gate, s.led, 3 * (k - 1), rest, Reads(1))
    else if rest[0] == 0x99 then Seen(out, s.gate, CM.LedOff, 3 * (k - 1) + 6, rest[1..], Finishes)
    else Attempts(p, e, s, k + 1, pos, rest[1..], out)
  }

  /** The end of a run of the machine shows just this. */
  predicate Shows(o: CM.Outcome, s: Seen) {
    && o.out == s.out && o.rest == s.rest
    && o.c.gate == s.gate && o.c.led == s.led && o.c.slept == s.slept
    && match s.stop
       case Reads(n) => !CM.Halted(o.c) && CM.Need(o.c) == n
       case Panics => o.c.pc.Aborted?
       case Finishes => o.c.pc.Done?
  }

  function SettledBy(c: CM.Client): Settled {
    Settled(c.hostPub, c.gate, c.led)
  }

  /** The machine is at attempt `k`, with all sent and read. */
  predicate At(c: CM.Client, k: nat) {
    1 <= k <= 4 && c.attempts == k && c.slept == 3 * (k - 1) && c.pend == [] && c.got == []
  }

  lemma {:induction false} AttemptsShow(
    p: Primitives, e: CM.ClientEnv, c: CM.Client, k: nat, input: bytes, out: bytes)
    requires c.pc.Loop? && 1 <= k <= 4 && At(c.(attempts := k), k) && c.attempts == k - 1
    ensures Shows(CM.Run(p, e, c, input, out), Attempts(p, e, SettledBy(c), k, c.pos, input, out))
    decreases 4 - k, 2
  {
    AttemptActs(p, e, c, k, input, out);
    if k <= 3 {
      var d := c.(pc := CM.Hash, attempts := k);
      if |input| >= 32 {
        DeriveShows(p, e, d, k, input[..32], input[32..], out + [0x22]);
        assert input == input[..32] + input[32..];
      }
    }
  }

  lemma AttemptActs(p: Primitives, e: CM.ClientEnv, c: CM.Client, k: nat, input: bytes, out: bytes)
    requires c.pc.Loop? && 1 <= k <= 4 && c.attempts == k - 1 && c.pend == [] && c.got == []
    ensures CM.Run(p, e, c, input, out)
         == if k > 3 then CM.Outcome(c.(pc := CM.Aborted(CM.Exhausted)), out, input)
            else CM.Run(p, e, c.(pc := CM.Hash, attempts := k), input, out + [0x22])
  {
    CM.RunReads(p, e, c, [], input, out);
    assert [] + input == input && out + [] == out;
  }

  lemma {:induction false} DeriveShows(
    p: Primitives, e: CM.ClientEnv, c: CM.Client, k: nat, got: bytes, rest: bytes, out: bytes)
    requires c.pc.Hash? && k <= 3 && At(c, k) && |got| == 32
    ensures Shows(CM.Run(p, e, c, got + rest, out), Derive(p, e, SettledBy(c), k, c.pos, got, rest, out))
    decreases 4 - k, 1
  {
    CM.RunReads(p, e, c, got, rest, out);
    var d := CM.Acted(p, e, c, got);
    var out' := out + CM.Output(p, e, c, got);
    if e.blakeFails(k) {
      AttemptsShow(p, e, d, k + 1, rest, out');
    } else {
      RepliedShows(p, e, d, k, rest, out');
    }
  }

  lemma {:induction false} RepliedShows(
    p: Primitives, e: CM.ClientEnv, c: CM.Client, k: nat, rest: bytes, out: bytes)
    requires c.pc.Result? && k <= 3 && At(c, k)
    ensures Shows(CM.Run(p, e, c, rest, out), Replied(p, e, SettledBy(c), k, c.pos, rest, out))
    decreases 4 - k, 0
  {
    if rest != [] {
      assert rest == rest[..1] + rest[1..];
      CM.RunReads(p, e, c, rest[..1], rest[1..], out);
      assert out + [] == out;
      var d := CM.Acted(p, e, c, rest[..1]);
      if rest[0] != 0x99 {
        AttemptsShow(p, e, d, k + 1, rest[1..], out);
      }
    }
  }

  // ----- The handshake -----

  /** The machine in the handshake, having slept and asked for nothing. */
  predicate Fresh(c: CM.Client) {
    && c.attempts == 0 && c.slept == 0 && c.pos == 0
    && c.led == CM.LedOff && c.gate == CM.LedOff && c.pend == [] && c.got == []
  }

  lemma GateShows(p: Primitives, e: CM.ClientEnv, c: CM.Client, input: bytes, out: bytes)
    requires c.pc.Touch? && c.pc.color == c.gate && Fresh(c.(gate := CM.LedOff))
    ensures Shows(CM.Run(p, e, c, input, out), Gate(p, e, c.hostPub, c.gate, input, out))
  {
    CM.RunReads(p, e, c, [], input, out);
    assert [] + input == input && out + [] == out;
    if e.touch {
      AttemptsShow(p, e, CM.Acted(p, e, c, []), 1, input, out);
    }
  }

  lemma SignatureShows(p: Primitives, e: CM.ClientEnv, c: CM.Client, sig: bytes, rest: bytes, out: bytes)
    requires c.pc.Sig? && Fresh(c) && |sig| == 64
    ensures Shows(CM.Run(p, e, c, sig + rest, out), Verdict(p, e, c.hostPub, [0x97] + (sig + rest), out))
  {
    var input := [0x97] + (sig + rest);
    assert input[1..65] == sig && input[65..] == rest;
    CM.RunReads(p, e, c, sig, rest, out);
    var d := CM.Acted(p, e, c, sig);
    var out' := out + CM.Output(p, e, c, sig);
    match p.checkSig(e.nonce + c.hostPub + p.pub(e.secret) + e.encNonce, sig)
    case Malformed =>
    case Invalid => GateShows(p, e, d, rest, out');
    case Genuine => AttemptsShow(p, e, d, 1, rest, out');
  }

  lemma VerdictShows(p: Primitives, e: CM.ClientEnv, c: CM.Client, input: bytes, out: bytes)
    requires c.pc.Status? && Fresh(c)
    ensures Shows(CM.Run(p, e, c, input, out), Verdict(p, e, c.hostPub, input, out))
  {
    if input != [] {
      assert input == input[..1] + input[1..];
      CM.RunReads(p, e, c, input[..1], input[1..], out);
      var d := CM.Acted(p, e, c, input[..1]);
      if input[0] != 0x97 {
        GateShows(p, e, d, input[1..], out + [0x13]);
      } else {
        assert out + [] == out;
        if |input| >= 65 {
          assert input == [0x97] + (input[1..65] + input[65..]);
          assert input[1..] == input[1..65] + input[65..];
          SignatureShows(p, e, d, input[1..65], input[65..], out);
        }
      }
    }
  }

  /** Whatever is sent to it, the TKey program is seen to do what `Device` says. */
  lemma DeviceShows(p: Primitives, e: CM.ClientEnv, input: bytes)
    ensures Shows(CM.Run(p, e, CM.INIT_CLIENT, input, []), Device(p, e, input))
  {
    CM.RunReads(p, e, CM.INIT_CLIENT, [], input, []);
    assert [] + input == input;
    var hello := CM.Acted(p, e, CM.INIT_CLIENT, []);
    var greeting := e.nonce + e.encNonce + p.pub(e.secret);
    assert [] + CM.Output(p, e, CM.INIT_CLIENT, []) == greeting;
    if |input| >= 32 {
      assert input == input[..32] + input[32..];
      CM.RunReads(p, e, hello, input[..32], input[32..], greeting);
      if e.pubkeyOk {
        assert greeting + [] == greeting;
        VerdictShows(p, e, CM.Acted(p, e, hello, input[..32]), input[32..], greeting);
      }
    }
  }

  // ----- The warning light -----

  lemma {:induction false} AttemptsKeepGate(
    p: Primitives, e: CM.ClientEnv, s: Settled, k: nat, pos: nat, input: bytes, out: bytes)
    requires k >= 1
    ensures Attempts(p, e, s, k, pos, input, out).gate == s.gate
    decreases 4 - k
  {
    if k <= 3 && |input| >= 32 {
      var shared := p.dh(e.secret, s.hostPub);
      var hash := Apply(p, shared, e.encNonce, pos, input[..32]);
      var keyfile := Apply(p, shared, e.encNonce, pos + 32, p.blake2s(e.cdi, hash));
      var rest, asked := input[32..], out + [0x22];
      var told := asked + ([0x21] + keyfile);
      assert Attempts(p, e, s, k, pos, input, out) == Derive(p, e, s, k, pos, input[..32], rest, asked);
      if e.blakeFails(k) {
        AttemptsKeepGate(p, e, s, k + 1, pos + 32, rest, asked + [0x10]);
      } else {
        assert Derive(p, e, s, k, pos, input[..32], rest, asked) == Replied(p, e, s, k, pos + 64, rest, told);
        if rest != [] && rest[0] != 0x99 {
          AttemptsKeepGate(p, e, s, k + 1, pos + 64, rest[1..], told);
        }
      }
    }
  }

  /** The host's opening bytes announce no signature. */
  predicate Refuses(e: CM.ClientEnv, input: bytes) {
    e.pubkeyOk && 33 <= |input| && input[32] != 0x97
  }

  /** They announce one, and it does not verify on the challenge with the key they begin with. */
  predicate Forges(p: Primitives, e: CM.ClientEnv, input: bytes) {
    && e.pubkeyOk && 97 <= |input| && input[32] == 0x97
    && p.checkSig(e.nonce + input[..32] + p.pub(e.secret) + e.encNonce, input[33..97]) == Invalid
  }

  /** The light while a touch is waited for: yellow for a refusal, purple for a bad signature. */
  lemma WarningIsRight(p: Primitives, e: CM.ClientEnv, input: bytes)
    ensures CM.Run(p, e, CM.INIT_CLIENT, input, []).c.gate
         == if Refuses(e, input) then CM.LedYellow else if Forges(p, e, input) then CM.LedPurple else CM.LedOff
  {
    DeviceShows(p, e, input);
    if e.pubkeyOk && |input| >= 33 {
      var hostPub, rest, out := input[..32], input[32..], e.nonce + e.encNonce + p.pub(e.secret);
      assert |input| >= 97 ==> input[33..97] == rest[1..65];
      if rest[0] != 0x97 {
        AttemptsKeepGate(p, e, Settled(hostPub, CM.LedYellow, CM.LedYellow), 1, 0, rest[1..], out + [0x13]);
      } else if |rest| >= 65 {
        AttemptsKeepGate(p, e, Settled(hostPub, CM.LedPurple, CM.LedPurple), 1, 0, rest[65..], out + [0x13]);
        AttemptsKeepGate(p, e, Settled(hostPub, CM.LedOff, CM.LedGreen), 1, 0, rest[65..], out + [0x20]);
      }
    }
  }
}
