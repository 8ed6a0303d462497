/** The TKey program with its buffers, its cipher object and its loop. */
module ClientApp {
  import opened Bytes
  import opened Primitives
  import opened Messages
  import opened StreamCipher
  import opened ClientMachine
  import opened Port
  import Challenge

  lemma RequestActs(p: Primitives, e: ClientEnv, m: Client, input: bytes, out: bytes)
    requires m.pc.Loop? && m.attempts < 3 && m.pend == [] && m.got == []
    ensures
      var m' := m.(pc := Hash, attempts := m.attempts + 1);
      && Acted(p, e, m, []) == m'
      && Run(p, e, m, input, out) == Run(p, e, m', input, out + [READY_4_PASS])
  {
    RunActs(p, e, m, input, out);
    assert input[0..] == input;
  }

  /** What the derivation writes. */
  function Derived(p: Primitives, e: ClientEnv, m: Client, got: bytes): bytes {
    var hash := Apply(p, Shared(p, e, m), e.encNonce, m.pos, got);
    var encrypted := Apply(p, Shared(p, e, m), e.encNonce, m.pos + 32, p.blake2s(e.cdi, hash));
    if e.blakeFails(m.attempts) then [BLAKE2_ERROR] else [GOOD_PASS] + encrypted
  }

  lemma HashActs(p: Primitives, e: ClientEnv, m: Client, got: bytes, rest: bytes, out: bytes)
    returns (m': Client)
    requires m.pc.Hash? && m.pend == [] && m.got == [] && |got| == 32
    ensures Run(p, e, m, got + rest, out) == Run(p, e, m', rest, out + Derived(p, e, m, got))
    ensures m'.pend == [] && m'.got == [] && m'.hostPub == m.hostPub
    ensures m'.led == m.led && m'.gate == m.gate && m'.attempts == m.attempts
    ensures m'.pc == if e.blakeFails(m.attempts) then Loop else Result
    ensures m'.pos == m.pos + if e.blakeFails(m.attempts) then 32 else 64
    ensures m'.slept == m.slept + if e.blakeFails(m.attempts) then 3 else 0
  {
    RunActs(p, e, m, got + rest, out);
    assert (got + rest)[..32] == got && (got + rest)[32..] == rest;
    m' := Acted(p, e, m, got);
  }

  class ClientApp {
    const p: Primitives
    const e: ClientEnv
    const port: Port
    var led: Led
    /** The light with which a touch is asked for. */
    var gate: Led
    var attempts: nat
    var slept: nat
    /** The stack slots of the attempt loop. */
    const hostHash: array<byte>
    const keyfile: array<byte>
    const encryptedKeyfile: array<byte>
    const cdi: array<byte>

    constructor (p: Primitives, e: ClientEnv, port: Port)
      ensures this.p == p && this.e == e && this.port == port
      ensures Separate() && SecretsZero()
      ensures led == LedOff && gate == LedOff && attempts == 0 && slept == 0
      ensures fresh(hostHash) && fresh(keyfile) && fresh(encryptedKeyfile) && fresh(cdi)
    {
      this.p, this.e, this.port := p, e, port;
      led, gate, attempts, slept := LedOff, LedOff, 0, 0;
      hostHash := new byte[32](_ => 0);
      keyfile := new byte[32](_ => 0);
      encryptedKeyfile := new byte[32](_ => 0);
      cdi := new byte[|e.cdi|](_ => 0);
    }

    ghost predicate Separate() {
      && hostHash.Length == keyfile.Length == encryptedKeyfile.Length == 32 && cdi.Length == |e.cdi|
      && hostHash != keyfile && hostHash != encryptedKeyfile && hostHash != cdi
      && keyfile != encryptedKeyfile && keyfile != cdi && encryptedKeyfile != cdi
    }

    /** No passphrase hash, keyfile or CDI is in memory. */
    ghost predicate SecretsZero()
      reads hostHash, keyfile, encryptedKeyfile, cdi
    {
      IsZero(hostHash) && IsZero(keyfile) && IsZero(encryptedKeyfile) && IsZero(cdi)
    }

    /** Every blocking read goes through here, so none happens with a secret in memory. */
    method Receive(buf: array<byte>) returns (ok: bool)
      requires Separate() && SecretsZero()
      requires buf != hostHash && buf != keyfile && buf != encryptedKeyfile && buf != cdi
      modifies port`incoming, buf
      ensures SecretsZero()
      ensures ok <==> buf.Length <= |old(port.incoming)|
      ensures ok ==> buf[..] == old(port.incoming)[..buf.Length] && port.incoming == old(port.incoming)[buf.Length..]
      ensures !ok ==> port.incoming == old(port.incoming)
    {
      ok := port.ReadExact(buf);
    }

    method Sleep(seconds: nat)
      modifies this`slept
      ensures slept == old(slept) + seconds
    {
      slept := slept + seconds;
    }

    /** The real fields show what the machine state says. */
    predicate Shows(m: Client)
      reads this
    {
      led == m.led && gate == m.gate && attempts == m.attempts && slept == m.slept
    }

    /** The whole program.  Whatever arrives, it writes what the machine writes, reads what the
        machine reads, and stops where the machine stops; no blocking read and no end finds a
        secret in memory. */
    method Execute() returns (ghost m: Client)
      requires e.Valid() && p.Valid()
      requires Separate() && SecretsZero() && led == LedOff && gate == LedOff && attempts == 0 && slept == 0
      modifies this, port, hostHash, keyfile, encryptedKeyfile, cdi
      ensures Run(p, e, INIT_CLIENT, old(port.incoming), old(port.outgoing))
           == Outcome(m, port.outgoing, port.incoming)
      ensures Shows(m) && SecretsZero()
    {
      ghost var total := Run(p, e, INIT_CLIENT, port.incoming, port.outgoing);
      var nonce, encNonce, tkeyPub := Hello();
      m := Acted(p, e, INIT_CLIENT, []);
      var goesOn, hostPub, challenge;
      goesOn, hostPub, challenge, m := Exchange(nonce, encNonce, tkeyPub, m, total);
      if !goesOn {
        return;
      }
      var cipher := new ChaCha20(p, p.dh(e.secret, hostPub), e.encNonce);
      goesOn, m := Authenticate(challenge, m, total);
      if !goesOn {
        return;
      }
      m := Attempts(cipher, m, total);
    }

    /** Nonce, encryption nonce and public key go out. */
    method Hello() returns (nonce: array<byte>, encNonce: array<byte>, tkeyPub: array<byte>)
      requires e.Valid() && p.Valid()
      modifies port`outgoing
      ensures Run(p, e, INIT_CLIENT, port.incoming, old(port.outgoing))
           == Run(p, e, Acted(p, e, INIT_CLIENT, []), port.incoming, port.outgoing)
      ensures fresh(nonce) && fresh(encNonce) && fresh(tkeyPub)
      ensures nonce[..] == e.nonce && encNonce[..] == e.encNonce && tkeyPub[..] == p.pub(e.secret)
    {
      ghost var outgoing := port.outgoing;
      nonce := SendFresh(e.nonce);
      encNonce := SendFresh(e.encNonce);
      tkeyPub := SendFresh(p.pub(e.secret));
      assert port.outgoing == outgoing + (e.nonce + e.encNonce + p.pub(e.secret));
      RunActs(p, e, INIT_CLIENT, port.incoming, outgoing);
      assert port.incoming[0..] == port.incoming;
    }

    /** What the device has drawn or derived, in a buffer of its own and on its way. */
    method SendFresh(data: bytes) returns (buf: array<byte>)
      modifies port`outgoing
      ensures fresh(buf) && buf[..] == data
      ensures port.outgoing == old(port.outgoing) + data
    {
      buf := new byte[|data|](_ => 0);
      Fill(buf, data);
      port.WriteAll(buf[..]);
    }

    /** The host's key comes in and the challenge is assembled. */
    method Exchange(nonce: array<byte>, encNonce: array<byte>, tkeyPub: array<byte>,
                    ghost m0: Client, ghost total: Outcome)
      returns (goesOn: bool, hostPub: bytes, challenge: array<byte>, ghost m: Client)
      requires p.Valid() && e.Valid() && Separate() && SecretsZero()
      requires nonce[..] == e.nonce && encNonce[..] == e.encNonce && tkeyPub[..] == p.pub(e.secret)
      requires m0.pc.HostPub? && Shows(m0) && m0.pos == 0 && m0.pend == [] && m0.got == []
      requires total == Run(p, e, m0, port.incoming, port.outgoing)
      modifies port
      ensures SecretsZero() && Shows(m) && fresh(challenge)
      ensures !goesOn ==> total == Outcome(m, port.outgoing, port.incoming)
      ensures goesOn ==>
        && m.pc.Status? && m.pos == 0 && m.pend == [] && m.got == [] && m.hostPub == hostPub
        && challenge[..] == ChallengeOf(p, e, m)
        && total == Run(p, e, m, port.incoming, port.outgoing)
    {
      m := m0;
      var hostPubBytes := new byte[32](_ => 0);
      challenge := new byte[0];
      ghost var input := port.incoming;
      var ok := Receive(hostPubBytes);
      hostPub := hostPubBytes[..];
      if !ok {
        return false, hostPub, challenge, m;
      }
      RunActs(p, e, m, input, port.outgoing);
      m := Acted(p, e, m, hostPub);
      if !e.pubkeyOk {
        port.WriteAll([BAD_PUBKEY]);
        return false, hostPub, challenge, m;
      }
      assert port.outgoing + [] == port.outgoing;
      challenge := Challenge.Build(nonce, hostPubBytes, tkeyPub, encNonce);
      goesOn := true;
    }

    /** `verify_sig` and the match on its result: the light and the touch gate.  A read that
        blocks and an abort do not come back. */
    method Authenticate(challenge: array<byte>, ghost m0: Client, ghost total: Outcome)
      returns (goesOn: bool, ghost m: Client)
      requires e.Valid() && p.Valid() && Separate() && SecretsZero()
      requires m0.pc.Status? && Shows(m0) && m0.pos == 0 && m0.pend == [] && m0.got == []
      requires challenge[..] == ChallengeOf(p, e, m0)
      requires total == Run(p, e, m0, port.incoming, port.outgoing)
      modifies this, port
      ensures SecretsZero() && Shows(m)
      ensures total == Run(p, e, m, port.incoming, port.outgoing)
      ensures !goesOn ==> total == Outcome(m, port.outgoing, port.incoming)
      ensures goesOn ==>
                m.pc.Loop? && m.pos == 0 && m.hostPub == m0.hostPub && m.pend == [] && m.got == []
    {
      m := m0;
      var status := new byte[1](_ => 0);
      var ok := Receive(status);
      if !ok {
        return false, m;
      }
      RunActs(p, e, m, old(port.incoming), port.outgoing);
      m := Acted(p, e, m, status[..]);
      if status[0] == TPM_SIGNED {
        assert port.outgoing + [] == port.outgoing;
        goesOn, m := CheckSignature(challenge, m, total);
      } else {
        port.WriteAll([INVALID_SIG]);
        goesOn, m := Touched(LedYellow, m, total);
      }
    }

    /** The signature comes in and is checked. */
    method CheckSignature(challenge: array<byte>, ghost m0: Client, ghost total: Outcome)
      returns (goesOn: bool, ghost m: Client)
      requires e.Valid() && p.Valid() && Separate() && SecretsZero()
      requires m0.pc.Sig? && Shows(m0) && m0.pos == 0 && m0.pend == [] && m0.got == []
      requires challenge[..] == ChallengeOf(p, e, m0)
      requires total == Run(p, e, m0, port.incoming, port.outgoing)
      modifies this, port
      ensures SecretsZero() && Shows(m)
      ensures total == Run(p, e, m, port.incoming, port.outgoing)
      ensures !goesOn ==> total == Outcome(m, port.outgoing, port.incoming)
      ensures goesOn ==>
                m.pc.Loop? && m.pos == 0 && m.hostPub == m0.hostPub && m.pend == [] && m.got == []
    {
      m := m0;
      var sig := new byte[64](_ => 0);
      ghost var input := port.incoming;
      var ok := Receive(sig);
      if !ok {
        return false, m;
      }
      RunActs(p, e, m, input, port.outgoing);
      m := Acted(p, e, m, sig[..]);
      match p.checkSig(challenge[..], sig[..]) {
        case Malformed =>
          port.WriteAll([MALFORMED_SIG]);
          return false, m;
        case Invalid =>
          port.WriteAll([INVALID_SIG]);
          goesOn, m := Touched(LedPurple, m, total);
          return;
        case Genuine =>
          port.WriteAll([GOOD_SIG]);
          led := LedGreen;
          return true, m;
      }
    }

    /** `request(30, colour)`, and the panic when nobody touches the device. */
    method Touched(color: Led, ghost m0: Client, ghost total: Outcome) returns (ok: bool, ghost m: Client)
      requires m0.pc == Touch(color) && m0.gate == color && m0.pend == [] && m0.got == []
      requires led == m0.led && attempts == m0.attempts && slept == m0.slept
      requires total == Run(p, e, m0, port.incoming, port.outgoing)
      modifies this`led, this`gate
      ensures Shows(m) && total == Run(p, e, m, port.incoming, port.outgoing)
      ensures m == m0.(pc := m.pc, led := m.led, touched := m.touched) && (if ok then m.pc.Loop? else m.pc.Aborted?)
    {
      RunActs(p, e, m0, port.incoming, port.outgoing);
      assert port.incoming[0..] == port.incoming && port.outgoing + [] == port.outgoing;
      m := Acted(p, e, m0, []);
      gate := color;
      ok := e.touch;
      if ok {
        led := color;
      }
    }

    /** The hash call: fails on the attempts the environment says. */
    method Blake2s() returns (ok: bool)
      requires Separate() && p.Valid()
      modifies keyfile
      ensures ok <==> !e.blakeFails(attempts)
      ensures ok ==> keyfile[..] == p.blake2s(cdi[..], hostHash[..])
    {
      ok := !e.blakeFails(attempts);
      if ok {
        Fill(keyfile, p.blake2s(cdi[..], hostHash[..]));
      }
    }

    /** The keyfile goes out encrypted, and everything is wiped. */
    method Reply(cipher: ChaCha20)
      requires Separate() && IsZero(encryptedKeyfile) && cipher.p == p
      modifies port`outgoing, cipher, hostHash, keyfile, encryptedKeyfile, cdi
      ensures SecretsZero()
      ensures port.outgoing == old(port.outgoing)
                + ([GOOD_PASS] + Apply(p, cipher.key, cipher.nonce, old(cipher.position), old(keyfile[..])))
      ensures cipher.position == old(cipher.position) + 32
    {
      Zeroize(hostHash);
      SendKeyfile(cipher);
      Zeroize(cdi);
    }

    method SendKeyfile(cipher: ChaCha20)
      requires Separate() && cipher.p == p
      modifies port`outgoing, cipher, keyfile, encryptedKeyfile
      ensures IsZero(keyfile) && IsZero(encryptedKeyfile)
      ensures port.outgoing == old(port.outgoing)
                + ([GOOD_PASS] + Apply(p, cipher.key, cipher.nonce, old(cipher.position), old(keyfile[..])))
      ensures cipher.position == old(cipher.position) + 32
    {
      cipher.ApplyKeystreamB2b(keyfile, encryptedKeyfile);
      Zeroize(keyfile);
      port.WriteAll([GOOD_PASS]);
      port.WriteAll(encryptedKeyfile[..]);
      Zeroize(encryptedKeyfile);
    }

    /** From the encrypted hash to the encrypted keyfile, wiping on every path. */
    method Derive(cipher: ChaCha20, encryptedHostHash: array<byte>, ghost m: Client) returns (ok: bool)
      requires p.Valid() && Separate() && SecretsZero() && encryptedHostHash.Length == 32
      requires encryptedHostHash != hostHash && cipher.p == p
      requires cipher.key == Shared(p, e, m) && cipher.nonce == e.encNonce
      requires cipher.position == m.pos && attempts == m.attempts
      modifies port`outgoing, cipher, hostHash, keyfile, encryptedKeyfile, cdi
      ensures SecretsZero()
      ensures ok <==> !e.blakeFails(attempts)
      ensures port.outgoing == old(port.outgoing) + Derived(p, e, m, old(encryptedHostHash[..]))
      ensures cipher.position == old(cipher.position) + (if ok then 64 else 32)
    {
      cipher.ApplyKeystreamB2b(encryptedHostHash, hostHash);
      Fill(cdi, e.cdi);
      ok := Blake2s();
      if ok {
        Reply(cipher);
      } else {
        TellFailure();
      }
    }

    /** The hash call has failed. */
    method TellFailure()
      requires Separate() && IsZero(encryptedKeyfile)
      modifies port`outgoing, hostHash, keyfile, cdi
      ensures SecretsZero()
      ensures port.outgoing == old(port.outgoing) + [BLAKE2_ERROR]
    {
      Zeroize(cdi);
      Zeroize(hostHash);
      Zeroize(keyfile);
      port.WriteAll([BLAKE2_ERROR]);
    }

    /** The state of the loop between its statements. */
    ghost predicate InLoop(m: Client, cipher: ChaCha20, total: Outcome)
      reads this, port, cipher, hostHash, keyfile, encryptedKeyfile, cdi
    {
      && Separate() && SecretsZero() && Shows(m) && m.pend == [] && m.got == []
      && cipher.p == p && cipher.key == Shared(p, e, m) && cipher.nonce == e.encNonce
      && cipher.position == m.pos
      && total == Run(p, e, m, port.incoming, port.outgoing)
    }

    /** Counts the attempt and tells the host that a passphrase is awaited. */
    method Signal(cipher: ChaCha20, ghost m0: Client, ghost total: Outcome) returns (ghost m: Client)
      requires InLoop(m0, cipher, total) && m0.pc.Loop? && attempts < 3
      modifies this`attempts, port`outgoing
      ensures Shows(m) && attempts == old(attempts) + 1
      ensures m == m0.(pc := Hash, attempts := attempts)
      ensures total == Run(p, e, m, port.incoming, port.outgoing)
    {
      RequestActs(p, e, m0, port.incoming, port.outgoing);
      m := m0.(pc := Hash, attempts := m0.attempts + 1);
      attempts := attempts + 1;
      port.WriteAll([READY_4_PASS]);
    }

    /** Asks for a passphrase hash and waits for it. */
    method Request(cipher: ChaCha20, ghost m0: Client, ghost total: Outcome)
      returns (goesOn: bool, encryptedHostHash: array<byte>, ghost m: Client)
      requires InLoop(m0, cipher, total) && m0.pc.Loop? && attempts < 3
      modifies this`attempts, port
      ensures SecretsZero() && Shows(m) && attempts == old(attempts) + 1
      ensures m == m0.(pc := Hash, attempts := attempts)
      ensures fresh(encryptedHostHash) && encryptedHostHash.Length == 32
      ensures !goesOn ==> total == Outcome(m, port.outgoing, port.incoming)
      ensures goesOn ==> total == Run(p, e, m, encryptedHostHash[..] + port.incoming, port.outgoing)
    {
      m := Signal(cipher, m0, total);
      encryptedHostHash := new byte[32](_ => 0);
      ghost var input := port.incoming;
      goesOn := Receive(encryptedHostHash);
      assert goesOn ==> input == encryptedHostHash[..] + port.incoming;
    }

    /** Asks for a passphrase hash and turns it into a keyfile. */
    method Attempt(cipher: ChaCha20, ghost m0: Client, ghost total: Outcome)
      returns (goesOn: bool, ok: bool, ghost m: Client)
      requires p.Valid() && InLoop(m0, cipher, total) && m0.pc.Loop? && attempts < 3
      modifies this, port, cipher, hostHash, keyfile, encryptedKeyfile, cdi
      ensures SecretsZero() && Shows(m)
      ensures !goesOn ==> total == Outcome(m, port.outgoing, port.incoming)
      ensures goesOn ==> InLoop(m, cipher, total) && attempts == old(attempts) + 1
                         && if ok then m.pc.Result? else m.pc.Loop?
    {
      ok := false;
      var encryptedHostHash;
      goesOn, encryptedHostHash, m := Request(cipher, m0, total);
      if !goesOn {
        return;
      }
      ghost var before := m;
      m := HashActs(p, e, before, encryptedHostHash[..], port.incoming, port.outgoing);
      ok := Derive(cipher, encryptedHostHash, before);
      if !ok {
        Sleep(3);
      }
    }

    /** Waits for the host's verdict. */
    method Verdict(cipher: ChaCha20, ghost m0: Client, ghost total: Outcome)
      returns (goesOn: bool, success: bool, ghost m: Client)
      requires InLoop(m0, cipher, total) && m0.pc.Result?
      modifies this, port
      ensures SecretsZero() && attempts == old(attempts)
      ensures !goesOn ==> Shows(m) && total == Outcome(m, port.outgoing, port.incoming)
      ensures goesOn && success ==>
                m == m0.(pc := Done, led := LedOff, slept := slept + 6) && slept == old(slept) && gate == old(gate)
                && total == Outcome(m, port.outgoing, port.incoming)
      ensures goesOn && !success ==> InLoop(m, cipher, total) && m.pc.Loop?
    {
      m := m0;
      ghost var input, output := port.incoming, port.outgoing;
      var verdict := new byte[1](_ => 0);
      success := false;
      goesOn := Receive(verdict);
      if !goesOn {
        return;
      }
      RunActs(p, e, m, input, output);
      assert output + [] == output;
      m := Acted(p, e, m, verdict[..]);
      success := verdict[0] == DECRYPTION_SUCCESS;
      if !success {
        Sleep(3);
      }
    }

    /** The loop of three attempts, and the end of a successful session. */
    method Attempts(cipher: ChaCha20, ghost m0: Client, ghost total: Outcome) returns (ghost m: Client)
      requires p.Valid() && InLoop(m0, cipher, total) && m0.pc.Loop?
      modifies this, port, cipher, hostHash, keyfile, encryptedKeyfile, cdi
      ensures SecretsZero() && Shows(m)
      ensures total == Outcome(m, port.outgoing, port.incoming)
    {
      m := m0;
      while true
        invariant InLoop(m, cipher, total) && m.pc.Loop?
        decreases if attempts < 4 then 4 - attempts else 0
      {
        if attempts >= 3 {
          RunActs(p, e, m, port.incoming, port.outgoing);
          assert port.incoming[0..] == port.incoming && port.outgoing + [] == port.outgoing;
          m := Acted(p, e, m, []);
          return;
        }
        var goesOn, ok;
        goesOn, ok, m := Attempt(cipher, m, total);
        if !goesOn {
          return;
        }
        if !ok {
          continue;
        }
        var success;
        goesOn, success, m := Verdict(cipher, m, total);
        if !goesOn {
          return;
        }
        if success {
          break;
        }
      }
      led := LedGreen;
      Sleep(6);
      led := LedOff;
    }
  }
}
