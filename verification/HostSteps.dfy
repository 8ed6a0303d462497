/** The host machine one read at a time, in the words of the programs: what a run goes on as
    after a read has been answered. */
module HostSteps {
  import opened Bytes
  import opened Primitives
  import opened Messages
  import opened StreamCipher
  import opened HostMachine
  import Qrexec

  /** The keyfiles of a list of deliveries. */
  function Keyfiles(ds: seq<Delivery>): seq<bytes> {
    seq(|ds|, i requires 0 <= i < |ds| => ds[i].keyfile)
  }

  lemma MoreKeyfiles(ds: seq<Delivery>, d: Delivery)
    ensures Keyfiles(ds + [d]) == Keyfiles(ds) + [d.keyfile]
  {
  }

  predicate Idle(m: Host) {
    m.pend == [] && m.dpend == [] && m.got == []
  }

  /** A program waiting for `got` on one of its two inputs goes on from there as `m'`, having
      written `w` and `dw`. */
  predicate GoesOn(p: Primitives, e: HostEnv, m: Host, got: bytes, m': Host, w: bytes, dw: bytes,
                   rest: bytes, drest: bytes, out: bytes, dout: bytes) {
    && Idle(m')
    && Run(p, e, m, if FromDom(m) then rest else got + rest, if FromDom(m) then got + drest else drest, out, dout)
       == Run(p, e, m', rest, drest, out + w, dout + dw)
  }

  lemma RunActs(p: Primitives, e: HostEnv, m: Host, got: bytes, rest: bytes, drest: bytes, out: bytes, dout: bytes)
    requires Idle(m) && CanAct(e, m.(got := got))
    ensures
      var d := Act(p, e, m.(got := got));
      GoesOn(p, e, m, got, Sent(d), d.pend, d.dpend, rest, drest, out, dout)
  {
    ActKeeps(p, e, m.(got := got));
    if FromDom(m) {
      assert (got + drest)[..Need(m)] == got && (got + drest)[Need(m)..] == drest;
      assert Fed(e, m, rest, got + drest) == m.(got := got);
    } else {
      assert (got + rest)[..Need(m)] == got && (got + rest)[Need(m)..] == rest;
      assert Fed(e, m, got + rest, drest) == m.(got := got);
    }
  }

  lemma NonceActs(p: Primitives, e: HostEnv, m: Host, got: bytes, rest: bytes, drest: bytes, out: bytes, dout: bytes)
    returns (m': Host)
    requires Idle(m) && m.pc.ReadNonce? && |got| == Need(m)
    ensures m' == m.(pc := ReadEncNonce, nonce := got)
    ensures GoesOn(p, e, m, got, m', [], [], rest, drest, out, dout)
  {
    RunActs(p, e, m, got, rest, drest, out, dout);
    m' := Sent(Act(p, e, m.(got := got)));
  }

  lemma EncNonceActs(p: Primitives, e: HostEnv, m: Host, got: bytes, rest: bytes, drest: bytes, out: bytes, dout: bytes)
    returns (m': Host)
    requires Idle(m) && m.pc.ReadEncNonce? && |got| == Need(m)
    ensures m' == m.(pc := ReadTkeyPub, encNonce := got)
    ensures GoesOn(p, e, m, got, m', p.pub(e.secret), [], rest, drest, out, dout)
  {
    RunActs(p, e, m, got, rest, drest, out, dout);
    m' := Sent(Act(p, e, m.(got := got)));
  }

  lemma TkeyPubActs(p: Primitives, e: HostEnv, m: Host, got: bytes, rest: bytes, drest: bytes, out: bytes, dout: bytes)
    returns (m': Host)
    requires Idle(m) && m.pc.ReadTkeyPub? && !e.mode.Qubes? && |got| == Need(m)
    ensures
      var signed := e.tpm(ChallengeOf(p, e, m.(tkeyPub := got)));
      m' == m.(pc := AuthReply, tkeyPub := got, sig := signed, trustworthy := signed.Some?)
    ensures GoesOn(p, e, m, got, m', StatusMessage(m'), [], rest, drest, out, dout)
  {
    RunActs(p, e, m, got, rest, drest, out, dout);
    m' := Sent(Act(p, e, m.(got := got)));
  }

  lemma TkeyPubForwarded(p: Primitives, e: HostEnv, m: Host,
    got: bytes, rest: bytes, drest: bytes, out: bytes, dout: bytes)
    returns (m': Host)
    requires Idle(m) && m.pc.ReadTkeyPub? && e.mode.Qubes? && |got| == Need(m)
    ensures m' == m.(pc := DomStatus, tkeyPub := got)
    ensures GoesOn(p, e, m, got, m', [], ChallengeOf(p, e, m.(tkeyPub := got)), rest, drest, out, dout)
  {
    RunActs(p, e, m, got, rest, drest, out, dout);
    m' := Sent(Act(p, e, m.(got := got)));
  }

  lemma AuthReplyActs(p: Primitives, e: HostEnv, m: Host,
    got: bytes, rest: bytes, drest: bytes, out: bytes, dout: bytes)
    returns (m': Host)
    requires Idle(m) && m.pc.AuthReply? && !e.mode.Qubes? && |got| == Need(m)
    ensures
      var status := DecodeClient(got[0]);
      m' == if status.GoodSig? then m.(pc := Ready, tries := 1)
            else if status.InvalidSig? || status.MalformedSig? || status.BadPubkey?
            then m.(pc := Ready, tries := 1, trustworthy := false)
            else m.(pc := Exit(Error))
    ensures GoesOn(p, e, m, got, m', [], [], rest, drest, out, dout)
  {
    RunActs(p, e, m, got, rest, drest, out, dout);
    m' := Sent(Act(p, e, m.(got := got)));
  }

  lemma ReadyActs(p: Primitives, e: HostEnv, m: Host, got: bytes, rest: bytes, drest: bytes, out: bytes, dout: bytes)
    returns (m': Host)
    requires Idle(m) && m.pc.Ready? && |got| == Need(m)
    ensures m' == if DecodeClient(got[0]).Ready4pass? then m.(pc := Ask) else m.(pc := Exit(Error))
    ensures GoesOn(p, e, m, got, m', [], [], rest, drest, out, dout)
  {
    RunActs(p, e, m, got, rest, drest, out, dout);
    m' := Sent(Act(p, e, m.(got := got)));
  }

  lemma HashReplyActs(p: Primitives, e: HostEnv, m: Host,
    got: bytes, rest: bytes, drest: bytes, out: bytes, dout: bytes)
    returns (m': Host)
    requires Idle(m) && m.pc.HashReply? && |got| == Need(m)
    ensures
      var status := DecodeClient(got[0]);
      m' == if status.GoodPass? then
              if e.mode.Enrol? && e.spawnFails(m.tries) then m.(pc := Exit(Error)) else m.(pc := ReadKeyfile)
            else if e.mode.Unlock? && (status.PassLen? || status.Blake2?) then NextTry(m)
            else m.(pc := Exit(Error))
    ensures GoesOn(p, e, m, got, m', [], [], rest, drest, out, dout)
  {
    RunActs(p, e, m, got, rest, drest, out, dout);
    m' := Sent(Act(p, e, m.(got := got)));
  }

  /** A prompt answered: nothing is read. */
  lemma AskActs(p: Primitives, e: HostEnv, m: Host, rest: bytes, drest: bytes, out: bytes, dout: bytes)
    returns (m': Host, w: bytes)
    requires Idle(m) && m.pc.Ask? && m.asked < |e.answers|
    ensures match AnsweredBy(p, e, e.answers[m.asked])
            case Rejected => m' == m.(asked := m.asked + 1) && w == []
            case NoAnswer => m' == m.(pc := Exit(Error), asked := m.asked + 1, told := []) && w == []
            case Accepted(pass) =>
              && m' == m.(pc := HashReply, asked := m.asked + 1, told := [], pass := pass,
                          hash := p.argon2(pass), pos := m.pos + 32, used := m.used + [m.pos])
              && w == Apply(p, Shared(p, e, m), m.encNonce, m.pos, p.argon2(pass))
    ensures Run(p, e, m, rest, drest, out, dout) == Run(p, e, m', rest, drest, out + w, dout)
    ensures w == [] ==> out + w == out
  {
    RunActs(p, e, m, [], rest, drest, out, dout);
    assert [] + rest == rest && dout + [] == dout;
    m', w := Sent(Act(p, e, m)), Act(p, e, m).pend;
  }

  /** How a try ended, as the loop of the unlocking program sees it. */
  datatype DecryptResult = Opens | WrongKey | Broken

  function ResultOf(outcome: Cryptsetup): DecryptResult {
    match outcome
    case PipeFailed => Broken
    case WaitFailed => Broken
    case Killed => WrongKey
    case Exited(status) => if status == 0 then Opens else WrongKey
  }

  function VerdictOf(outcome: Cryptsetup): bytes {
    if outcome.WaitFailed? then []
    else if ResultOf(outcome).Opens? then [DECRYPTION_SUCCESS]
    else [DECRYPTION_ERROR]
  }

  /** How the unlocking program goes on after a keyfile, once cryptsetup has started. */
  predicate Tried(p: Primitives, e: HostEnv, m: Host, got: bytes, m': Host) {
    var d := InHand(p, e, m.(got := got));
    && m' == m.(pc := m'.pc, tries := m'.tries, pos := m.pos + 32, told := m'.told,
                delivered := m.delivered + [d])
    && (match ResultOf(e.unlock(m.tries, d.keyfile))
        case Opens => m'.pc == Exit(Success)
        case Broken => m'.pc == Exit(Error)
        case WrongKey =>
          if m.tries >= 3 then m'.pc == Exit(Failure) else m'.pc.Ready? && m'.tries == m.tries + 1)
  }

  lemma KeyfileIsTried(p: Primitives, e: HostEnv, m: Host, got: bytes)
    requires Idle(m) && m.pc.ReadKeyfile? && |got| == 32 && e.mode.Unlock? && !e.spawnFails(m.tries)
    ensures
      var d := ActKeyfile(p, e, m.(got := got));
      && Tried(p, e, m, got, Sent(d)) && d.dpend == []
      && d.pend == VerdictOf(e.unlock(m.tries, InHand(p, e, m.(got := got)).keyfile))
  {
  }

  /** A keyfile read by the unlocking program whose cryptsetup has started. */
  lemma UnlockActs(p: Primitives, e: HostEnv, m: Host, got: bytes, rest: bytes, drest: bytes, out: bytes, dout: bytes)
    returns (m': Host)
    requires Idle(m) && m.pc.ReadKeyfile? && |got| == 32 && e.mode.Unlock? && !e.spawnFails(m.tries)
    ensures Tried(p, e, m, got, m')
    ensures GoesOn(p, e, m, got, m', VerdictOf(e.unlock(m.tries, InHand(p, e, m.(got := got)).keyfile)), [],
                   rest, drest, out, dout)
  {
    RunActs(p, e, m, got, rest, drest, out, dout);
    KeyfileIsTried(p, e, m, got);
    m' := Sent(ActKeyfile(p, e, m.(got := got)));
  }

  lemma UnlockDoesNotStart(p: Primitives, e: HostEnv, m: Host,
    got: bytes, rest: bytes, drest: bytes, out: bytes, dout: bytes)
    requires Idle(m) && m.pc.ReadKeyfile? && |got| == 32 && e.mode.Unlock? && e.spawnFails(m.tries)
    ensures GoesOn(p, e, m, got, m.(pc := Exit(Error)), [], [], rest, drest, out, dout)
  {
    RunActs(p, e, m, got, rest, drest, out, dout);
    NotStarted(p, e, m, got);
  }

  lemma NotStarted(p: Primitives, e: HostEnv, m: Host, got: bytes)
    requires Idle(m) && m.pc.ReadKeyfile? && |got| == 32 && e.mode.Unlock? && e.spawnFails(m.tries)
    ensures Act(p, e, m.(got := got)) == m.(pc := Exit(Error))
  {
  }

  /** A keyfile read by the enrolling program. */
  lemma EnrolActs(p: Primitives, e: HostEnv, m: Host, got: bytes, rest: bytes, drest: bytes, out: bytes, dout: bytes)
    returns (m': Host)
    requires Idle(m) && m.pc.ReadKeyfile? && |got| == 32 && e.mode.Enrol?
    ensures
      var command := AddKey(|e.current|, e.current + InHand(p, e, m.(got := got)).keyfile);
      var outcome := e.addKey(command.size, command.piped);
      && m'.pc == Exit(EnrolCode(outcome)) && m'.added == m.added + [command]
      && m'.delivered == m.delivered + [InHand(p, e, m.(got := got))]
      && m'.asked == m.asked && m'.trustworthy == m.trustworthy && m'.slot == m.slot
      && GoesOn(p, e, m, got, m', EnrolVerdict(outcome), [], rest, drest, out, dout)
  {
    RunActs(p, e, m, got, rest, drest, out, dout);
    m' := Sent(ActKeyfile(p, e, m.(got := got)));
  }

  function EnrolCode(outcome: Cryptsetup): ExitCode {
    match outcome
    case Exited(status) => if status == 0 then Success else Failure
    case _ => Error
  }

  function EnrolVerdict(outcome: Cryptsetup): bytes {
    match outcome
    case Exited(status) => [if status == 0 then DECRYPTION_SUCCESS else DECRYPTION_ERROR]
    case _ => []
  }

  /** A keyfile read by the Qubes program: it goes to dom0 with the current passphrase. */
  lemma ForwardActs(p: Primitives, e: HostEnv, m: Host, got: bytes, rest: bytes, drest: bytes, out: bytes, dout: bytes)
    returns (m': Host)
    requires Idle(m) && m.pc.ReadKeyfile? && |got| == 32 && e.mode.Qubes?
    ensures
      var d := InHand(p, e, m.(got := got));
      && m' == m.(pc := DomResult, pos := m.pos + 32, delivered := m.delivered + [d])
      && GoesOn(p, e, m, got, m', [], Qrexec.Encode(e.current, d.keyfile), rest, drest, out, dout)
  {
    RunActs(p, e, m, got, rest, drest, out, dout);
    m' := Sent(ActKeyfile(p, e, m.(got := got)));
  }

  lemma DomStatusActs(p: Primitives, e: HostEnv, m: Host,
    got: bytes, rest: bytes, drest: bytes, out: bytes, dout: bytes)
    returns (m': Host)
    requires Idle(m) && m.pc.DomStatus? && |got| == Need(m)
    ensures
      var status := DecodeHost(got[0]);
      m' == if status.TpmSigned? then m.(pc := DomSig)
            else if status.TpmRefusedToSign? && m.slot.None? then m.(pc := AuthReply)
            else m.(pc := Exit(Error))
    ensures GoesOn(p, e, m, got, m', if m'.pc.AuthReply? then [TPM_REFUSED_TO_SIGN] else [], [], rest, drest, out, dout)
  {
    RunActs(p, e, m, got, rest, drest, out, dout);
    m' := Sent(Act(p, e, m.(got := got)));
  }

  lemma DomSigActs(p: Primitives, e: HostEnv, m: Host, got: bytes, rest: bytes, drest: bytes, out: bytes, dout: bytes)
    returns (m': Host)
    requires Idle(m) && m.pc.DomSig? && |got| == Need(m)
    ensures m' == m.(pc := AuthReply, sig := Some(got))
    ensures GoesOn(p, e, m, got, m', [TPM_SIGNED] + got, [], rest, drest, out, dout)
  {
    RunActs(p, e, m, got, rest, drest, out, dout);
    m' := Sent(Act(p, e, m.(got := got)));
  }

  lemma QubesReplyActs(p: Primitives, e: HostEnv, m: Host,
    got: bytes, rest: bytes, drest: bytes, out: bytes, dout: bytes)
    returns (m': Host)
    requires Idle(m) && m.pc.AuthReply? && e.mode.Qubes? && |got| == Need(m)
    ensures
      var status := DecodeClient(got[0]);
      m' == if status.GoodSig? || status.InvalidSig? then m.(pc := Ready, tries := 1) else m.(pc := Exit(Error))
    ensures GoesOn(p, e, m, got, m', [], [], rest, drest, out, dout)
  {
    RunActs(p, e, m, got, rest, drest, out, dout);
    m' := Sent(Act(p, e, m.(got := got)));
  }

  lemma DomResultActs(p: Primitives, e: HostEnv, m: Host,
    got: bytes, rest: bytes, drest: bytes, out: bytes, dout: bytes)
    returns (m': Host)
    requires Idle(m) && m.pc.DomResult? && |got| == Need(m)
    ensures
      m' == if DecodeHost(got[0]).DecryptionSuccess? then m.(pc := DomWait) else m.(pc := Exit(Error))
    ensures GoesOn(p, e, m, got, m', [],
                   if m'.pc.DomWait? then [if m.slot.Some? then m.slot.value else DO_NOTHING] else [],
                   rest, drest, out, dout)
  {
    RunActs(p, e, m, got, rest, drest, out, dout);
    m' := Sent(Act(p, e, m.(got := got)));
  }
}
