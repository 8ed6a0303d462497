/** The host library and the unlocking program, with their buffers, cipher object and loop. */
module HostApp {
  import opened Bytes
  import opened Primitives
  import opened Messages
  import opened StreamCipher
  import opened HostMachine
  import opened HostSteps
  import opened Port
  import Challenge
  import Qrexec

  function CodeOf(m: Host): Option<ExitCode> {
    match m.pc
    case Exit(code) => Some(code)
    case _ => None
  }

  class HostApp {
    const p: Primitives
    const e: HostEnv
    const tkey: Port
    const dom: Port
    /** The run being followed, and how far it has come. */
    ghost const total: Outcome
    ghost var m: Host
    var asked: nat
    var trustworthy: bool
    var slot: Option<byte>
    /** What was written into cryptsetup to open the disk, and the add-key commands run. */
    var piped: seq<bytes>
    var commands: seq<AddKey>
    /** The exit code, once there is one. */
    var code: Option<ExitCode>
    /** Whether dom0's program is being waited for. */
    var waits: bool

    constructor (p: Primitives, e: HostEnv, tkey: Port, dom: Port)
      requires tkey != dom
      ensures this.p == p && this.e == e && this.tkey == tkey && this.dom == dom
      ensures total == Run(p, e, InitHost(e), tkey.incoming, dom.incoming, tkey.outgoing, dom.outgoing)
      ensures Follows() && m == InitHost(e)
    {
      this.p, this.e, this.tkey, this.dom := p, e, tkey, dom;
      total := Run(p, e, InitHost(e), tkey.incoming, dom.incoming, tkey.outgoing, dom.outgoing);
      m := InitHost(e);
      asked, trustworthy, piped, commands := 0, false, [], [];
      code, waits := CodeOf(InitHost(e)), false;
      slot := InitHost(e).slot;
    }

    /** What is left of the run is what the machine does from `m` on. */
    ghost predicate Follows()
      reads this, tkey, dom
    {
      && tkey != dom
      && Idle(m)
      && asked == m.asked && trustworthy == m.trustworthy && slot == m.slot
      && Records()
      && total == Run(p, e, m, tkey.incoming, dom.incoming, tkey.outgoing, dom.outgoing)
    }

    /** The commands run are those of the machine. */
    ghost predicate Records()
      reads this
    {
      && code == CodeOf(m) && waits == m.pc.DomWait?
      && commands == m.added && (e.mode.Unlock? ==> piped == Keyfiles(m.delivered))
    }

    /** The run is over: the program has exited or waits for ever. */
    ghost predicate Over()
      reads this, tkey, dom
    {
      Records() && total == Outcome(m, tkey.outgoing, dom.outgoing, tkey.incoming, dom.incoming)
    }

    /** The cipher object is where the machine says. */
    ghost predicate Ciphers(cipher: ChaCha20)
      reads this, cipher
    {
      && cipher.p == p && cipher.key == Shared(p, e, m) && cipher.nonce == m.encNonce
      && cipher.position == m.pos
    }

    /** `read_exact` from the TKey, and the machine's state waits for these bytes. */
    method Read(buf: array<byte>) returns (ok: bool)
      requires Follows() && !FromDom(m) && !m.pc.Ask? && buf.Length == Need(m) && 0 < Need(m)
      modifies tkey`incoming, buf
      ensures !ok ==> Follows() && Over()
      ensures ok ==> total == Run(p, e, m, buf[..] + tkey.incoming, dom.incoming, tkey.outgoing, dom.outgoing)
    {
      ghost var input := tkey.incoming;
      ok := tkey.ReadExact(buf);
      assert ok ==> input == buf[..] + tkey.incoming;
    }

    /** `check_status`. */
    method CheckStatus() returns (ok: bool, status: ClientMessage, ghost got: bytes)
      requires Follows() && !FromDom(m) && !m.pc.Ask? && Need(m) == 1
      modifies tkey`incoming
      ensures !ok ==> Follows() && Over()
      ensures ok ==> |got| == 1 && status == DecodeClient(got[0])
      ensures ok ==> total == Run(p, e, m, got + tkey.incoming, dom.incoming, tkey.outgoing, dom.outgoing)
    {
      var statusByte := new byte[1](_ => 0);
      ok := Read(statusByte);
      got := statusByte[..];
      status := DecodeClient(statusByte[0]);
    }

    /** The first read of every host program. */
    method ReadTheNonce() returns (goesOn: bool, nonce: array<byte>)
      requires Follows() && m.pc.ReadNonce?
      modifies this`m, tkey`incoming
      ensures fresh(nonce) && nonce.Length == 32
      ensures !goesOn ==> Follows() && Over() && m == old(m)
      ensures goesOn ==> Follows() && m == old(m).(pc := ReadEncNonce, nonce := nonce[..])
    {
      nonce := new byte[32](_ => 0);
      goesOn := Read(nonce);
      if goesOn {
        m := NonceActs(p, e, m, nonce[..], tkey.incoming, dom.incoming, tkey.outgoing, dom.outgoing);
        assert tkey.outgoing + [] == tkey.outgoing && dom.outgoing + [] == dom.outgoing;
      }
    }

    /** The encryption nonce comes in and the host's public key goes out. */
    method ExchangeKeys() returns (goesOn: bool, encNonce: array<byte>, hostPub: array<byte>)
      requires Follows() && m.pc.ReadEncNonce? && p.Valid()
      modifies this`m, tkey
      ensures fresh(encNonce) && fresh(hostPub) && encNonce.Length == 12 && hostPub.Length == 32
      ensures !goesOn ==> Follows() && Over()
      ensures goesOn ==> Follows() && m == old(m).(pc := ReadTkeyPub, encNonce := encNonce[..])
      ensures hostPub[..] == p.pub(e.secret)
    {
      var public := p.pub(e.secret);
      hostPub := new byte[32](i requires 0 <= i < 32 => public[i]);
      assert hostPub[..] == public;
      encNonce := new byte[12](_ => 0);
      goesOn := Read(encNonce);
      if goesOn {
        m := EncNonceActs(p, e, m, encNonce[..], tkey.incoming, dom.incoming, tkey.outgoing, dom.outgoing);
        assert dom.outgoing + [] == dom.outgoing;
        tkey.WriteAll(hostPub[..]);
      }
    }

    /** `get_chacha20_cipher`: keys are exchanged and the challenge assembled.  The machine is
        left on its last read, so that the caller decides who signs. */
    method GetCipher(nonce: array<byte>)
      returns (goesOn: bool, cipher: ChaCha20, challenge: array<byte>, ghost got: bytes)
      requires Follows() && m.pc.ReadEncNonce? && p.Valid() && m.pos == 0
      requires nonce.Length == 32 && nonce[..] == m.nonce
      modifies this`m, tkey
      ensures fresh(cipher)
      ensures !goesOn ==> Follows() && Over()
      ensures goesOn ==>
        && m.pc.ReadTkeyPub? && Idle(m) && m == old(m).(pc := ReadTkeyPub, encNonce := m.encNonce)
        && |got| == 32
        && challenge[..] == ChallengeOf(p, e, m.(tkeyPub := got))
        && cipher.p == p && cipher.key == Shared(p, e, m.(tkeyPub := got)) && cipher.nonce == m.encNonce
        && cipher.position == 0
        && total == Run(p, e, m, got + tkey.incoming, dom.incoming, tkey.outgoing, dom.outgoing)
    {
      var encNonce, hostPub;
      goesOn, encNonce, hostPub := ExchangeKeys();
      if goesOn {
        goesOn, cipher, challenge, got := Agree(nonce, encNonce, hostPub);
      } else {
        cipher := new ChaCha20(p, [], []);
        challenge := nonce;
        got := [];
      }
    }

    /** The TKey's public key comes in: shared secret, cipher, challenge. */
    method Agree(nonce: array<byte>, encNonce: array<byte>, hostPub: array<byte>)
      returns (goesOn: bool, cipher: ChaCha20, challenge: array<byte>, ghost got: bytes)
      requires Follows() && m.pc.ReadTkeyPub?
      requires nonce.Length == hostPub.Length == 32 && encNonce.Length == 12
      requires nonce[..] == m.nonce && encNonce[..] == m.encNonce && hostPub[..] == p.pub(e.secret)
      modifies tkey`incoming
      ensures fresh(cipher)
      ensures !goesOn ==> Follows() && Over()
      ensures goesOn ==>
        && |got| == 32
        && challenge[..] == ChallengeOf(p, e, m.(tkeyPub := got))
        && cipher.p == p && cipher.key == Shared(p, e, m.(tkeyPub := got)) && cipher.nonce == m.encNonce
        && cipher.position == 0
        && total == Run(p, e, m, got + tkey.incoming, dom.incoming, tkey.outgoing, dom.outgoing)
    {
      var tkeyPub := new byte[32](_ => 0);
      goesOn := Read(tkeyPub);
      got := tkeyPub[..];
      cipher := new ChaCha20(p, p.dh(e.secret, tkeyPub[..]), encNonce[..]);
      challenge := Challenge.Build(nonce, hostPub, tkeyPub, encNonce);
    }

    /** `auth_with_tkey_and_tpm`, after the app is loaded. */
    method AuthWithTkeyAndTpm() returns (goesOn: bool, cipher: ChaCha20)
      requires Follows() && m == InitHost(e) && p.Valid() && !e.mode.Qubes?
      modifies this, tkey
      ensures fresh(cipher)
      ensures !goesOn ==> Over()
      ensures goesOn ==> Follows() && Ciphers(cipher) && m.pc.Ready? && m.tries == 1
    {
      cipher := new ChaCha20(p, [], []);
      var nonce;
      goesOn, nonce := ReadTheNonce();
      if !goesOn {
        return;
      }
      var challenge;
      ghost var got;
      goesOn, cipher, challenge, got := GetCipher(nonce);
      if !goesOn {
        return;
      }
      SignAndSend(cipher, challenge, got);
      goesOn := HearVerdict(cipher);
    }

    /** The TPM signs or refuses; the TKey is told. */
    method SignAndSend(cipher: ChaCha20, challenge: array<byte>, ghost got: bytes)
      requires !e.mode.Qubes? && tkey != dom && Idle(m) && m.pc.ReadTkeyPub? && |got| == 32
      requires asked == m.asked && trustworthy == m.trustworthy && slot == m.slot && Records()
      requires challenge[..] == ChallengeOf(p, e, m.(tkeyPub := got))
      requires total == Run(p, e, m, got + tkey.incoming, dom.incoming, tkey.outgoing, dom.outgoing)
      requires cipher.p == p && cipher.key == Shared(p, e, m.(tkeyPub := got)) && cipher.nonce == m.encNonce
      requires cipher.position == m.pos
      modifies this, tkey`outgoing
      ensures Follows() && m.pc.AuthReply? && Ciphers(cipher)
    {
      m := TkeyPubActs(p, e, m, got, tkey.incoming, dom.incoming, tkey.outgoing, dom.outgoing);
      assert dom.outgoing + [] == dom.outgoing;
      Verify(challenge);
    }

    /** `verify`, and its answer on the way to the TKey. */
    method Verify(challenge: array<byte>)
      requires tkey != dom
      modifies this`trustworthy, tkey`outgoing
      ensures trustworthy <==> e.tpm(challenge[..]).Some?
      ensures tkey.outgoing == old(tkey.outgoing)
                + match e.tpm(challenge[..])
                  case Some(sig) => [TPM_SIGNED] + sig
                  case None => [TPM_REFUSED_TO_SIGN]
    {
      var signature := e.tpm(challenge[..]);
      match signature {
        case Some(sig) =>
          tkey.WriteAll([TPM_SIGNED]);
          tkey.WriteAll(sig);
          trustworthy := true;
        case None =>
          tkey.WriteAll([TPM_REFUSED_TO_SIGN]);
          trustworthy := false;
      }
    }

    /** What the TKey made of the signature. */
    method HearVerdict(cipher: ChaCha20) returns (goesOn: bool)
      requires Follows() && m.pc.AuthReply? && Ciphers(cipher) && !e.mode.Qubes?
      modifies this, tkey`incoming
      ensures !goesOn ==> Over()
      ensures goesOn ==> Follows() && Ciphers(cipher) && m.pc.Ready? && m.tries == 1
    {
      var status;
      ghost var got;
      goesOn, status, got := CheckStatus();
      if !goesOn {
        return;
      }
      goesOn := TakeVerdict(cipher, status, got);
    }

    method TakeVerdict(cipher: ChaCha20, status: ClientMessage, ghost got: bytes) returns (goesOn: bool)
      requires tkey != dom && Idle(m) && asked == m.asked && trustworthy == m.trustworthy && slot == m.slot && Records()
      requires m.pc.AuthReply? && Ciphers(cipher) && !e.mode.Qubes?
      requires |got| == 1 && status == DecodeClient(got[0])
      requires total == Run(p, e, m, got + tkey.incoming, dom.incoming, tkey.outgoing, dom.outgoing)
      modifies this
      ensures !goesOn ==> Over()
      ensures goesOn ==> Follows() && Ciphers(cipher) && m.pc.Ready? && m.tries == 1
    {
      m := AuthReplyActs(p, e, m, got, tkey.incoming, dom.incoming, tkey.outgoing, dom.outgoing);
      assert tkey.outgoing + [] == tkey.outgoing && dom.outgoing + [] == dom.outgoing;
      assert total == Run(p, e, m, tkey.incoming, dom.incoming, tkey.outgoing, dom.outgoing);
      goesOn := Judge(status);
    }

    /** Three of the TKey's errors cost the system its trust; any other is the end. */
    method Judge(status: ClientMessage) returns (goesOn: bool)
      modifies this`trustworthy, this`code
      ensures goesOn <==> status.GoodSig? || status.InvalidSig? || status.MalformedSig? || status.BadPubkey?
      ensures trustworthy == (old(trustworthy) && (status.GoodSig? || !goesOn))
      ensures code == if goesOn then old(code) else Some(Error)
    {
      goesOn := true;
      match status {
        case GoodSig =>
        case InvalidSig => trustworthy := false;
        case MalformedSig => trustworthy := false;
        case BadPubkey => trustworthy := false;
        case _ =>
          goesOn := false;
          code := Some(Error);
      }
    }

    /** The Argon2id hash of an accepted passphrase, encrypted in place and sent. */
    method SendHash(cipher: ChaCha20, pass: bytes)
      requires p.Valid() && tkey != dom && cipher.p == p
      modifies cipher, tkey`outgoing
      ensures tkey.outgoing == old(tkey.outgoing)
                + Apply(p, cipher.key, cipher.nonce, old(cipher.position), p.argon2(pass))
      ensures cipher.position == old(cipher.position) + 32
    {
      var hash := p.argon2(pass);
      var hashedPass := new byte[32](i requires 0 <= i < 32 => hash[i]);
      assert hashedPass[..] == hash;
      var encryptedHashedPass := new byte[32](_ => 0);
      cipher.ApplyKeystreamB2b(hashedPass, encryptedHashedPass);
      Zeroize(hashedPass);
      tkey.WriteAll(encryptedHashedPass[..]);
    }

    /** Prompts until a passphrase is acceptable, then sends its hash. */
    method Prompt(cipher: ChaCha20) returns (goesOn: bool)
      requires Follows() && Ciphers(cipher) && m.pc.Ask? && p.Valid()
      modifies this, cipher, tkey`outgoing
      ensures !goesOn ==> Over() && (m.pc.Ask? || m.pc == Exit(Error))
      ensures goesOn ==> Follows() && Ciphers(cipher) && m.pc.HashReply? && m.tries == old(m.tries)
      decreases |e.answers| - asked
    {
      if |e.answers| <= asked {
        return false;
      }
      var answered := PromptOnce(cipher);
      match answered {
        case Rejected => goesOn := Prompt(cipher);
        case NoAnswer => goesOn := false;
        case Accepted(_) => goesOn := true;
      }
    }

    method PromptOnce(cipher: ChaCha20) returns (answered: Answered)
      requires Follows() && Ciphers(cipher) && m.pc.Ask? && p.Valid() && asked < |e.answers|
      modifies this, cipher, tkey`outgoing
      ensures Follows() && asked == old(asked) + 1 && m.tries == old(m.tries)
      ensures match answered
              case Rejected => Ciphers(cipher) && m.pc.Ask?
              case NoAnswer => m.pc == Exit(Error)
              case Accepted(_) => Ciphers(cipher) && m.pc.HashReply?
    {
      ghost var m0, w := m, [];
      m, w := AskActs(p, e, m0, tkey.incoming, dom.incoming, tkey.outgoing, dom.outgoing);
      assert total == Run(p, e, m, tkey.incoming, dom.incoming, tkey.outgoing + w, dom.outgoing);
      answered := Answer(cipher, e.answers[asked]);
    }

    /** The hash of an accepted passphrase is sent. */
    method Answer(cipher: ChaCha20, answer: HostMachine.Answer) returns (answered: Answered)
      requires p.Valid() && tkey != dom && cipher.p == p
      modifies this`asked, this`code, cipher, tkey`outgoing
      ensures asked == old(asked) + 1 && answered == AnsweredBy(p, e, answer)
      ensures forall pass ::
                answered == Accepted(pass) <==> TypedAs(e.mode, answer, pass) && !p.argon2Fails(pass)
      ensures code == if answered.NoAnswer? then Some(Error) else old(code)
      ensures if answered.Accepted? then
                && tkey.outgoing == old(tkey.outgoing)
                     + Apply(p, cipher.key, cipher.nonce, old(cipher.position), p.argon2(answered.pass))
                && cipher.position == old(cipher.position) + 32
              else tkey.outgoing == old(tkey.outgoing) && cipher.position == old(cipher.position)
    {
      asked := asked + 1;
      if answer.PromptFailed? {
        code := Some(Error);
        return NoAnswer;
      }
      var pass := Accept(e.mode, answer);
      if pass.None? {
        return Rejected;
      }
      if p.argon2Fails(pass.value) {
        code := Some(Error);
        return NoAnswer;
      }
      SendHash(cipher, pass.value);
      return Accepted(pass.value);
    }

    /** `ask_for_password`, or `pass_enroll`: the prompt, then the TKey's reply. */
    method AskForPassword(cipher: ChaCha20, tries: nat) returns (goesOn: bool, status: ClientMessage)
      requires Follows() && Ciphers(cipher) && m.pc.Ask? && p.Valid() && tries == m.tries
      modifies this, cipher, tkey
      ensures !goesOn ==> Over()
      ensures goesOn ==> Follows() && Ciphers(cipher) && AfterReply(tries, status)
    {
      goesOn := Prompt(cipher);
      status := UnknownError;
      if goesOn {
        goesOn, status := HearReply(cipher, tries);
      }
    }

    /** What a reply to a hash makes the program do next. */
    predicate TryAgain(status: ClientMessage) {
      e.mode.Unlock? && (status.PassLen? || status.Blake2?)
    }

    /** Where the reply to a hash leads. */
    ghost predicate AfterReply(tries: nat, status: ClientMessage)
      reads this
    {
      if status.GoodPass? then
        m.tries == tries && if e.mode.Enrol? && e.spawnFails(tries) then m.pc == Exit(Error) else m.pc.ReadKeyfile?
      else if TryAgain(status) then
        if tries >= 3 then m.pc == Exit(Failure) else m.pc.Ready? && m.tries == tries + 1
      else m.pc == Exit(Error)
    }

    method HearReply(cipher: ChaCha20, tries: nat) returns (goesOn: bool, status: ClientMessage)
      requires Follows() && Ciphers(cipher) && m.pc.HashReply? && tries == m.tries
      modifies this, tkey`incoming
      ensures !goesOn ==> Over()
      ensures goesOn ==> Follows() && Ciphers(cipher) && AfterReply(tries, status)
    {
      ghost var got;
      goesOn, status, got := CheckStatus();
      if goesOn {
        m := HashReplyActs(p, e, m, got, tkey.incoming, dom.incoming, tkey.outgoing, dom.outgoing);
        assert tkey.outgoing + [] == tkey.outgoing && dom.outgoing + [] == dom.outgoing;
        assert total == Run(p, e, m, tkey.incoming, dom.incoming, tkey.outgoing, dom.outgoing);
        if status.GoodPass? {
          if e.mode.Enrol? && e.spawnFails(tries) {
            code := Some(Error);
          }
        } else if TryAgain(status) {
          if tries >= 3 {
            code := Some(Failure);
          }
        } else {
          code := Some(Error);
        }
      }
    }

    /** The first byte of every try. */
    method ExpectReady(cipher: ChaCha20) returns (goesOn: bool)
      requires Follows() && Ciphers(cipher) && m.pc.Ready?
      modifies this, tkey`incoming
      ensures !goesOn ==> Over()
      ensures goesOn ==> Follows() && Ciphers(cipher) && m.pc.Ask? && m.tries == old(m.tries)
    {
      var status;
      ghost var got;
      goesOn, status, got := CheckStatus();
      if goesOn {
        m := ReadyActs(p, e, m, got, tkey.incoming, dom.incoming, tkey.outgoing, dom.outgoing);
        assert tkey.outgoing + [] == tkey.outgoing && dom.outgoing + [] == dom.outgoing;
        if !status.Ready4pass? {
          code := Some(Error);
          goesOn := false;
        }
      }
    }

    /** Where a keyfile that opened, or did not open, the disk leads. */
    ghost predicate AfterDecrypt(tries: nat, r: DecryptResult)
      reads this
    {
      match r
      case Opens => m.pc == Exit(Success)
      case WrongKey => if tries >= 3 then m.pc == Exit(Failure) else m.pc.Ready? && m.tries == tries + 1
      case Broken => m.pc == Exit(Error)
    }

    /** The keyfile is decrypted in place, piped into cryptsetup, and wiped. */
    method PipeIn(cipher: ChaCha20, keyfile: array<byte>, tries: nat) returns (outcome: Cryptsetup)
      modifies this`piped, cipher, keyfile
      ensures
        var plain := Apply(cipher.p, cipher.key, cipher.nonce, old(cipher.position), old(keyfile[..]));
        && piped == old(piped) + [plain]
        && outcome == e.unlock(tries, plain)
      ensures cipher.position == old(cipher.position) + keyfile.Length
      ensures IsZero(keyfile)
    {
      cipher.ApplyKeystream(keyfile);
      piped := piped + [keyfile[..]];
      outcome := e.unlock(tries, keyfile[..]);
      Zeroize(keyfile);
    }

    /** `decrypt`: the keyfile is read and tried, and the TKey is told how that went. */
    method Decrypt(cipher: ChaCha20, tries: nat) returns (goesOn: bool, r: DecryptResult)
      requires Follows() && Ciphers(cipher) && m.pc.ReadKeyfile? && e.mode.Unlock? && tries == m.tries
      modifies this, cipher, tkey
      ensures !goesOn ==> Over()
      ensures goesOn ==> Follows() && AfterDecrypt(tries, r) && (r.WrongKey? ==> Ciphers(cipher))
    {
      r := Broken;
      var keyfile := new byte[32](_ => 0);
      goesOn := Read(keyfile);
      if !goesOn {
        return;
      }
      if e.spawnFails(tries) {
        GiveUp(keyfile);
        return;
      }
      r := TryKeyfile(cipher, keyfile, tries);
    }

    /** cryptsetup does not start. */
    method GiveUp(keyfile: array<byte>)
      requires tkey != dom && Idle(m) && asked == m.asked && trustworthy == m.trustworthy && slot == m.slot && Records()
      requires m.pc.ReadKeyfile? && e.mode.Unlock? && e.spawnFails(m.tries) && keyfile.Length == 32
      requires total == Run(p, e, m, keyfile[..] + tkey.incoming, dom.incoming, tkey.outgoing, dom.outgoing)
      modifies this`m, this`code
      ensures Follows() && m.pc == Exit(Error)
    {
      UnlockDoesNotStart(p, e, m, keyfile[..], tkey.incoming, dom.incoming, tkey.outgoing, dom.outgoing);
      assert tkey.outgoing + [] == tkey.outgoing && dom.outgoing + [] == dom.outgoing;
      m := m.(pc := Exit(Error));
      code := Some(Error);
    }

    /** `decrypt`, once cryptsetup runs. */
    method TryKeyfile(cipher: ChaCha20, keyfile: array<byte>, tries: nat) returns (r: DecryptResult)
      requires tkey != dom && Idle(m) && asked == m.asked && trustworthy == m.trustworthy && slot == m.slot && Records()
      requires Ciphers(cipher) && m.pc.ReadKeyfile? && e.mode.Unlock? && !e.spawnFails(tries) && tries == m.tries
      requires keyfile.Length == 32
      requires total == Run(p, e, m, keyfile[..] + tkey.incoming, dom.incoming, tkey.outgoing, dom.outgoing)
      modifies this, cipher, tkey`outgoing, keyfile
      ensures Follows() && AfterDecrypt(tries, r) && (r.WrongKey? ==> Ciphers(cipher))
    {
      ghost var m0, d := m, InHand(p, e, m.(got := keyfile[..]));
      m := UnlockActs(p, e, m0, keyfile[..], tkey.incoming, dom.incoming, tkey.outgoing, dom.outgoing);
      assert dom.outgoing + [] == dom.outgoing;
      MoreKeyfiles(m0.delivered, d);
      ghost var w := VerdictOf(e.unlock(tries, d.keyfile));
      assert total == Run(p, e, m, tkey.incoming, dom.incoming, tkey.outgoing + w, dom.outgoing);
      r := PipeAndConclude(cipher, keyfile, tries);
    }

    method PipeAndConclude(cipher: ChaCha20, keyfile: array<byte>, tries: nat) returns (r: DecryptResult)
      modifies this`piped, this`code, cipher, keyfile, tkey`outgoing
      ensures
        var plain := Apply(cipher.p, cipher.key, cipher.nonce, old(cipher.position), old(keyfile[..]));
        && piped == old(piped) + [plain]
        && r == ResultOf(e.unlock(tries, plain))
        && tkey.outgoing == old(tkey.outgoing) + VerdictOf(e.unlock(tries, plain))
      ensures cipher.position == old(cipher.position) + keyfile.Length
      ensures code == CodeAfter(r, tries, old(code))
    {
      var outcome := PipeIn(cipher, keyfile, tries);
      r := Conclude(outcome, tries);
    }

    /** Success, an error, and a third failure end the program. */
    function CodeAfter(r: DecryptResult, tries: nat, code: Option<ExitCode>): Option<ExitCode> {
      match r
      case Opens => Some(Success)
      case Broken => Some(Error)
      case WrongKey => if tries >= 3 then Some(Failure) else code
    }

    /** The exit status of cryptsetup: what the TKey is told, and whether there is another try. */
    method Conclude(outcome: Cryptsetup, tries: nat) returns (r: DecryptResult)
      modifies this`code, tkey`outgoing
      ensures r == ResultOf(outcome)
      ensures tkey.outgoing == old(tkey.outgoing) + VerdictOf(outcome)
      ensures code == CodeAfter(r, tries, old(code))
    {
      match outcome {
        case PipeFailed =>
          tkey.WriteAll([DECRYPTION_ERROR]);
          r := Broken;
        case WaitFailed =>
          r := Broken;
        case Killed =>
          tkey.WriteAll([DECRYPTION_ERROR]);
          r := WrongKey;
        case Exited(status) =>
          if status == 0 {
            tkey.WriteAll([DECRYPTION_SUCCESS]);
            r := Opens;
          } else {
            tkey.WriteAll([DECRYPTION_ERROR]);
            r := WrongKey;
          }
      }
      if r.Opens? {
        code := Some(Success);
      } else if r.Broken? {
        code := Some(Error);
      } else if tries >= 3 {
        code := Some(Failure);
      }
    }

    /** The unlocking program: three tries. */
    method Unlock()
      requires Follows() && m == InitHost(e) && p.Valid() && e.mode.Unlock?
      modifies this, tkey
      ensures Over()
    {
      var goesOn, cipher := AuthWithTkeyAndTpm();
      if !goesOn {
        return;
      }
      for tries := 1 to 4
        invariant Follows() && Ciphers(cipher) && fresh(cipher)
        invariant if tries <= 3 then m.pc.Ready? && m.tries == tries else m.pc == Exit(Failure)
      {
        goesOn := ExpectReady(cipher);
        if !goesOn {
          return;
        }
        var status;
        goesOn, status := AskForPassword(cipher, tries);
        if !goesOn {
          return;
        }
        if TryAgain(status) {
          continue;
        }
        if !status.GoodPass? {
          return;
        }
        var r;
        goesOn, r := Decrypt(cipher, tries);
        if !goesOn || !r.WrongKey? {
          return;
        }
      }
    }

    // ----- Enrolling -----

    /** The enrolling program: one attempt. */
    method Enrol()
      requires Follows() && m == InitHost(e) && p.Valid() && e.mode.Enrol?
      modifies this, tkey
      ensures Over()
    {
      var goesOn, cipher := AuthWithTkeyAndTpm();
      if !goesOn {
        return;
      }
      goesOn := ExpectReady(cipher);
      if !goesOn {
        return;
      }
      var status;
      goesOn, status := AskForPassword(cipher, 1);
      if !goesOn || !status.GoodPass? || e.spawnFails(1) {
        return;
      }
      Enroll(cipher);
    }

    /** `enroll`: the current passphrase and the decrypted keyfile are piped into luksAddKey. */
    method Enroll(cipher: ChaCha20)
      requires Follows() && Ciphers(cipher) && m.pc.ReadKeyfile? && e.mode.Enrol?
      modifies this, cipher, tkey
      ensures Over()
    {
      var encryptedKeyfile := new byte[32](_ => 0);
      var goesOn := Read(encryptedKeyfile);
      if goesOn {
        EnrollKeyfile(cipher, encryptedKeyfile);
      }
    }

    method EnrollKeyfile(cipher: ChaCha20, encryptedKeyfile: array<byte>)
      requires tkey != dom && Idle(m) && asked == m.asked && trustworthy == m.trustworthy && slot == m.slot && Records()
      requires Ciphers(cipher) && m.pc.ReadKeyfile? && e.mode.Enrol? && encryptedKeyfile.Length == 32
      requires total == Run(p, e, m, encryptedKeyfile[..] + tkey.incoming, dom.incoming, tkey.outgoing, dom.outgoing)
      modifies this, cipher, tkey`outgoing, encryptedKeyfile
      ensures Over()
    {
      m := EnrolActs(p, e, m, encryptedKeyfile[..], tkey.incoming, dom.incoming, tkey.outgoing, dom.outgoing);
      assert dom.outgoing + [] == dom.outgoing;
      var outcome := RunAddKey(cipher, encryptedKeyfile);
      ConcludeEnrolment(outcome);
    }

    /** luksAddKey runs on the current passphrase and the decrypted keyfile. */
    method RunAddKey(cipher: ChaCha20, encryptedKeyfile: array<byte>) returns (outcome: Cryptsetup)
      modifies this`commands, cipher, encryptedKeyfile
      ensures
        var keyfile := Apply(cipher.p, cipher.key, cipher.nonce, old(cipher.position), old(encryptedKeyfile[..]));
        && commands == old(commands) + [AddKey(|e.current|, e.current + keyfile)]
        && outcome == e.addKey(|e.current|, e.current + keyfile)
      ensures IsZero(encryptedKeyfile)
    {
      var stdin := e.current;
      var keyfile := new byte[encryptedKeyfile.Length](_ => 0);
      cipher.ApplyKeystreamB2b(encryptedKeyfile, keyfile);
      Zeroize(encryptedKeyfile);
      stdin := stdin + keyfile[..];
      Zeroize(keyfile);
      commands := commands + [AddKey(|e.current|, stdin)];
      outcome := e.addKey(|e.current|, stdin);
    }

    method ConcludeEnrolment(outcome: Cryptsetup)
      modifies this`code, tkey`outgoing
      ensures code == Some(EnrolCode(outcome))
      ensures tkey.outgoing == old(tkey.outgoing) + EnrolVerdict(outcome)
    {
      match outcome {
        case Exited(status) =>
          if status == 0 {
            tkey.WriteAll([DECRYPTION_SUCCESS]);
            code := Some(Success);
          } else {
            tkey.WriteAll([DECRYPTION_ERROR]);
            code := Some(Failure);
          }
        case _ =>
          code := Some(Error);
      }
    }

    // ----- Enrolling through dom0 -----

    /** `read_exact` from dom0. */
    method ReadDom(buf: array<byte>) returns (ok: bool)
      requires Follows() && FromDom(m) && buf.Length == Need(m)
      modifies dom`incoming, buf
      ensures !ok ==> Follows() && Over()
      ensures ok ==> total == Run(p, e, m, tkey.incoming, buf[..] + dom.incoming, tkey.outgoing, dom.outgoing)
    {
      ghost var input := dom.incoming;
      ok := dom.ReadExact(buf);
      assert ok ==> input == buf[..] + dom.incoming;
    }

    /** The Qubes program, with the exit status of dom0's program, if it ever ends. */
    method Qubes(domExit: Option<bool>)
      requires Follows() && m == InitHost(e) && p.Valid() && e.mode.Qubes?
      modifies this, tkey, dom
      ensures
        var end := Concluded(total, domExit);
        && code == CodeOf(end.h)
        && tkey.outgoing == end.out && dom.outgoing == end.dout
        && tkey.incoming == end.rest && dom.incoming == end.drest
    {
      QubesUntilExit();
      if waits && domExit.Some? {
        SeeDomExit(domExit.value);
      }
    }

    /** Only a good end of dom0's program is told to the TKey. */
    method SeeDomExit(ok: bool)
      modifies this`code, this`waits, tkey`outgoing
      ensures tkey.outgoing == old(tkey.outgoing) + if ok then [DECRYPTION_SUCCESS] else []
      ensures code == Some(if ok then Success else Error) && !waits
    {
      waits := false;
      if ok {
        tkey.WriteAll([DECRYPTION_SUCCESS]);
        code := Some(Success);
      } else {
        code := Some(Error);
      }
    }

    method QubesUntilExit()
      requires Follows() && m == InitHost(e) && p.Valid() && e.mode.Qubes?
      modifies this, tkey, dom
      ensures Over()
    {
      if code.Some? {
        return;
      }
      var goesOn, cipher := RelayChallenge();
      if !goesOn {
        return;
      }
      goesOn := RelaySignature(cipher);
      if !goesOn {
        return;
      }
      goesOn := HearQubesVerdict(cipher);
      if !goesOn {
        return;
      }
      goesOn := ExpectReady(cipher);
      if !goesOn {
        return;
      }
      var status;
      goesOn, status := AskForPassword(cipher, 1);
      if !goesOn || !status.GoodPass? {
        return;
      }
      goesOn := ForwardKeyfile(cipher);
      if !goesOn {
        return;
      }
      ForwardSlot();
    }

    method RelayChallenge() returns (goesOn: bool, cipher: ChaCha20)
      requires Follows() && m == InitHost(e) && m.pc.ReadNonce? && p.Valid() && e.mode.Qubes?
      modifies this, tkey, dom
      ensures fresh(cipher)
      ensures !goesOn ==> Over()
      ensures goesOn ==> Follows() && Ciphers(cipher) && m.pc.DomStatus?
    {
      var nonce;
      goesOn, nonce := ReadTheNonce();
      if !goesOn {
        cipher := new ChaCha20(p, [], []);
        return;
      }
      var challenge;
      ghost var got;
      goesOn, cipher, challenge, got := GetCipher(nonce);
      if goesOn {
        m := TkeyPubForwarded(p, e, m, got, tkey.incoming, dom.incoming, tkey.outgoing, dom.outgoing);
        assert tkey.outgoing + [] == tkey.outgoing;
        dom.WriteAll(challenge[..]);
      }
    }

    /** dom0's answer: signed, refused, or neither. */
    method HearDomStatus() returns (goesOn: bool, status: HostMessage)
      requires Follows() && m.pc.DomStatus? && e.mode.Qubes?
      modifies this`m, dom`incoming
      ensures !goesOn ==> Follows() && Over()
      ensures goesOn ==>
        && Idle(m) && m == old(m).(pc := m.pc)
        && m.pc == (if status.TpmSigned? then DomSig
                    else if status.TpmRefusedToSign? && m.slot.None? then AuthReply
                    else Exit(Error))
        && total == Run(p, e, m, tkey.incoming, dom.incoming,
                        tkey.outgoing + (if m.pc.AuthReply? then [TPM_REFUSED_TO_SIGN] else []), dom.outgoing)
    {
      var b := new byte[1](_ => 0);
      status := UnknownHostMessage;
      goesOn := ReadDom(b);
      if goesOn {
        status := DecodeHost(b[0]);
        m := DomStatusActs(p, e, m, b[..], tkey.incoming, dom.incoming, tkey.outgoing, dom.outgoing);
        assert dom.outgoing + [] == dom.outgoing;
      }
    }

    /** It goes on to the TKey, unless a slot was to be killed and nobody signed. */
    method RelaySignature(cipher: ChaCha20) returns (goesOn: bool)
      requires Follows() && Ciphers(cipher) && m.pc.DomStatus? && e.mode.Qubes?
      modifies this, tkey`outgoing, dom`incoming
      ensures !goesOn ==> Over()
      ensures goesOn ==> Follows() && Ciphers(cipher) && m.pc.AuthReply?
    {
      var status;
      goesOn, status := HearDomStatus();
      if !goesOn {
        return;
      }
      assert tkey.outgoing + [] == tkey.outgoing;
      if status.TpmSigned? {
        goesOn := RelaySigBytes(cipher);
      } else if status.TpmRefusedToSign? && slot.None? {
        tkey.WriteAll([TPM_REFUSED_TO_SIGN]);
      } else {
        code := Some(Error);
        goesOn := false;
      }
    }

    method RelaySigBytes(cipher: ChaCha20) returns (goesOn: bool)
      requires Follows() && Ciphers(cipher) && m.pc.DomSig?
      modifies this, tkey`outgoing, dom`incoming
      ensures !goesOn ==> Over()
      ensures goesOn ==> Follows() && Ciphers(cipher) && m.pc.AuthReply?
    {
      var sigBytes := new byte[64](_ => 0);
      goesOn := ReadDom(sigBytes);
      if goesOn {
        m := DomSigActs(p, e, m, sigBytes[..], tkey.incoming, dom.incoming, tkey.outgoing, dom.outgoing);
        assert dom.outgoing + [] == dom.outgoing;
        RelayStatus(sigBytes[..]);
      }
    }

    /** The byte for "signed" and the signature. */
    method RelayStatus(sig: bytes)
      modifies tkey`outgoing
      ensures tkey.outgoing == old(tkey.outgoing) + ([TPM_SIGNED] + sig)
    {
      tkey.WriteAll([TPM_SIGNED]);
      tkey.WriteAll(sig);
    }

    method HearQubesVerdict(cipher: ChaCha20) returns (goesOn: bool)
      requires Follows() && m.pc.AuthReply? && Ciphers(cipher) && e.mode.Qubes?
      modifies this, tkey`incoming
      ensures !goesOn ==> Over()
      ensures goesOn ==> Follows() && Ciphers(cipher) && m.pc.Ready? && m.tries == 1
    {
      var status;
      ghost var got;
      goesOn, status, got := CheckStatus();
      if goesOn {
        m := QubesReplyActs(p, e, m, got, tkey.incoming, dom.incoming, tkey.outgoing, dom.outgoing);
        assert tkey.outgoing + [] == tkey.outgoing && dom.outgoing + [] == dom.outgoing;
        assert total == Run(p, e, m, tkey.incoming, dom.incoming, tkey.outgoing, dom.outgoing);
        if !status.GoodSig? && !status.InvalidSig? {
          code := Some(Error);
          goesOn := false;
        }
      }
    }

    /** Length byte, current passphrase and decrypted keyfile go to dom0. */
    method ForwardKeyfile(cipher: ChaCha20) returns (goesOn: bool)
      requires Follows() && Ciphers(cipher) && m.pc.ReadKeyfile? && e.mode.Qubes?
      modifies this, cipher, tkey`incoming, dom`outgoing
      ensures !goesOn ==> Over()
      ensures goesOn ==> Follows() && m.pc.DomResult?
    {
      var encryptedKeyfile := new byte[32](_ => 0);
      goesOn := Read(encryptedKeyfile);
      if !goesOn {
        return;
      }
      m := ForwardActs(p, e, m, encryptedKeyfile[..], tkey.incoming, dom.incoming, tkey.outgoing, dom.outgoing);
      assert tkey.outgoing + [] == tkey.outgoing;
      SendToDom(cipher, encryptedKeyfile);
    }

    method SendToDom(cipher: ChaCha20, encryptedKeyfile: array<byte>)
      modifies cipher, dom`outgoing
      ensures
        var keyfile := Apply(cipher.p, cipher.key, cipher.nonce, old(cipher.position), old(encryptedKeyfile[..]));
        dom.outgoing == old(dom.outgoing) + Qrexec.Encode(e.current, keyfile)
    {
      ghost var dout := dom.outgoing;
      var keyfile := new byte[encryptedKeyfile.Length](_ => 0);
      dom.WriteAll([|e.current| % 256]);
      dom.WriteAll(e.current);
      cipher.ApplyKeystreamB2b(encryptedKeyfile, keyfile);
      dom.WriteAll(keyfile[..]);
      assert dom.outgoing == dout + ([|e.current| % 256] + e.current + keyfile[..]);
    }

    /** After dom0 has added the key: the slot to kill, or the do-nothing byte. */
    method ForwardSlot()
      requires Follows() && m.pc.DomResult?
      modifies this, dom
      ensures Over()
    {
      var b := new byte[1](_ => 0);
      var goesOn := ReadDom(b);
      if !goesOn {
        return;
      }
      TakeResult(b[..]);
    }

    method TakeResult(b: bytes)
      requires tkey != dom && Idle(m) && asked == m.asked && trustworthy == m.trustworthy && slot == m.slot && Records()
      requires m.pc.DomResult? && |b| == 1
      requires total == Run(p, e, m, tkey.incoming, b + dom.incoming, tkey.outgoing, dom.outgoing)
      modifies this, dom`outgoing
      ensures Over()
    {
      m := DomResultActs(p, e, m, b, tkey.incoming, dom.incoming, tkey.outgoing, dom.outgoing);
      assert tkey.outgoing + [] == tkey.outgoing;
      ghost var w := if m.pc.DomWait? then [if m.slot.Some? then m.slot.value else DO_NOTHING] else [];
      assert total == Run(p, e, m, tkey.incoming, dom.incoming, tkey.outgoing, dom.outgoing + w);
      SendSlot(DecodeHost(b[0]).DecryptionSuccess?);
    }

    method SendSlot(added: bool)
      modifies this`waits, this`code, dom`outgoing
      ensures dom.outgoing == old(dom.outgoing)
                + if added then [if slot.Some? then slot.value else DO_NOTHING] else []
      ensures waits == (old(waits) || added) && code == if added then old(code) else Some(Error)
    {
      if added {
        dom.WriteAll([if slot.Some? then slot.value else DO_NOTHING]);
        waits := true;
      } else {
        code := Some(Error);
      }
    }
  }
}
