/** The three host programs as one step machine: unlocking in the initramfs, enrolling, and
    enrolling from a Qubes virtual machine, where a program in dom0 owns the TPM and the
    disk.  They share the handshake and differ from there on. */
module HostMachine {
  import opened Bytes
  import opened Primitives
  import opened Messages
  import opened StreamCipher
  import Challenge
  import Qrexec

  datatype Option<T> = None | Some(value: T)

  datatype Mode = Unlock | Enrol | Qubes

  /** One prompt answered: what `systemd-ask-password` printed (`first` alone), or the
      passphrase and its confirmation. */
  datatype Answer = PromptFailed | Typed(first: bytes, second: bytes)

  /** How feeding and waiting for cryptsetup can end, once it has started. */
  datatype Cryptsetup = PipeFailed | WaitFailed | Killed | Exited(code: int)

  /** Everything the host learns from outside: its key, the TPM, all that the user will
      type, and what cryptsetup does.  `unlock` answers for a try and a keyfile, `addKey` for
      a key file size and the bytes piped in; `spawnFails` says on which try it does not even
      start. */
  datatype HostEnv = HostEnv(
    mode: Mode, secret: bytes, argv: seq<string>,
    tpm: bytes -> Option<bytes>,
    answers: seq<Answer>, current: bytes,
    spawnFails: nat -> bool,
    unlock: (nat, bytes) -> Cryptsetup,
    addKey: (nat, bytes) -> Cryptsetup)
  {
    ghost predicate Valid() {
      forall ch :: tpm(ch).Some? ==> |tpm(ch).value| == 64
    }
  }

  datatype ExitCode = Success | Failure | Error

  datatype HostPc =
    | ReadNonce
    | ReadEncNonce
    | ReadTkeyPub
    | DomStatus
    | DomSig
    | AuthReply
    | Ready
    | Ask
    | HashReply
    | ReadKeyfile
    | DomResult
    | DomWait
    | Exit(code: ExitCode)

  /** A keyfile handed to cryptsetup, or to dom0 for it: on which try, after how many answers
      of the user, and with which passphrase behind it. */
  datatype Delivery = Delivery(attempt: nat, asked: nat, pass: bytes, keyfile: bytes)

  /** A `luksAddKey` command: `--keyfile-size` and everything written to its input. */
  datatype AddKey = AddKey(size: nat, piped: bytes)

  /** `sig` is what was relayed from the TPM, `told` the last verdict byte sent, `dpend` the
      bytes on their way to dom0; `delivered`, `added` and `used` record what happened. */
  datatype Host = Host(
    pc: HostPc, tries: nat, asked: nat, slot: Option<byte>,
    nonce: bytes, encNonce: bytes, tkeyPub: bytes, pos: nat,
    sig: Option<bytes>, trustworthy: bool, pass: bytes, hash: bytes, told: bytes,
    delivered: seq<Delivery>, added: seq<AddKey>, used: seq<nat>,
    pend: bytes, dpend: bytes, got: bytes)

  function InitHost(e: HostEnv): Host {
    var h := Host(ReadNonce, 0, 0, None, [], [], [], 0, None, false, [], [], [], [], [], [], [], [], []);
    if e.mode.Qubes? then
      match Qrexec.ParseSlot(e.argv)
      case NoSlot => h
      case Slot(n) => h.(slot := Some(n))
      case BadSlot => h.(pc := Exit(Error))
    else h
  }

  function Need(h: Host): nat {
    match h.pc
    case ReadNonce => 32
    case ReadEncNonce => 12
    case ReadTkeyPub => 32
    case DomStatus => 1
    case DomSig => 64
    case AuthReply => 1
    case Ready => 1
    case HashReply => 1
    case ReadKeyfile => 32
    case DomResult => 1
    case _ => 0
  }

  /** Whether the next read is from dom0 rather than from the TKey. */
  predicate FromDom(h: Host) {
    h.pc.DomStatus? || h.pc.DomSig? || h.pc.DomResult?
  }

  /** The part of the current read that came from the TKey. */
  function TkeyRead(h: Host): bytes {
    if FromDom(h) then [] else h.got
  }

  /** The part of the current read that came from dom0. */
  function DomRead(h: Host): bytes {
    if FromDom(h) then h.got else []
  }

  predicate CanAct(e: HostEnv, h: Host) {
    && !h.pc.Exit? && !h.pc.DomWait?
    && h.pend == [] && h.dpend == [] && |h.got| == Need(h)
    && (h.pc.Ask? ==> h.asked < |e.answers|)
  }

  function Shared(p: Primitives, e: HostEnv, h: Host): bytes {
    p.dh(e.secret, h.tkeyPub)
  }

  function ChallengeOf(p: Primitives, e: HostEnv, h: Host): bytes {
    Challenge.Layout(h.nonce, p.pub(e.secret), h.tkeyPub, h.encNonce)
  }

  /** The passphrase that an answer amounts to, if the program does not ask again. */
  function Accept(m: Mode, a: Answer): Option<bytes>
    requires a.Typed?
  {
    match m
    case Unlock => if |a.first| < 9 then None else Some(a.first[..|a.first| - 1])
    case Enrol => if a.first != a.second || |a.first| < 8 then None else Some(a.first)
    case Qubes => if a.first != a.second || |a.first| > 255 || |a.first| < 8 then None else Some(a.first)
  }

  /** How a passphrase has to be typed: for unlocking with one more byte, the newline, after at
      least eight; for enrolling twice the same, of at least eight bytes, and for the Qubes
      program of at most 255. */
  predicate TypedAs(m: Mode, a: Answer, pass: bytes) {
    match m
    case Unlock => a.Typed? && 9 <= |a.first| && pass == a.first[..|a.first| - 1]
    case Enrol => a == Typed(pass, pass) && 8 <= |pass|
    case Qubes => a == Typed(pass, pass) && 8 <= |pass| <= 255
  }

  /** The prompts accept just what is typed that way. */
  lemma AcceptIsExact(m: Mode, a: Answer, pass: bytes)
    requires a.Typed?
    ensures Accept(m, a) == Some(pass) <==> TypedAs(m, a, pass)
  {
  }

  /** What one prompt comes to: an answer to ask again after, a failure, or a passphrase. */
  datatype Answered = Rejected | NoAnswer | Accepted(pass: bytes)

  function AnsweredBy(p: Primitives, e: HostEnv, answer: Answer): Answered {
    match answer
    case PromptFailed => NoAnswer
    case Typed(_, _) =>
      match Accept(e.mode, answer)
      case None => Rejected
      case Some(pass) => if p.argon2Fails(pass) then NoAnswer else Accepted(pass)
  }

  function StatusMessage(h: Host): bytes {
    if h.sig.Some? then [TPM_SIGNED] + h.sig.value else [TPM_REFUSED_TO_SIGN]
  }

  function Act(p: Primitives, e: HostEnv, h: Host): Host
    requires CanAct(e, h)
  {
    var d := h.(got := []);
    match h.pc
    case ReadNonce => d.(pc := ReadEncNonce, nonce := h.got)
    case ReadEncNonce => d.(pc := ReadTkeyPub, encNonce := h.got, pend := p.pub(e.secret))
    case ReadTkeyPub =>
      var k := d.(tkeyPub := h.got);
      var challenge := ChallengeOf(p, e, k);
      if e.mode.Qubes? then k.(pc := DomStatus, dpend := challenge)
      else
        var k' := k.(pc := AuthReply, sig := e.tpm(challenge), trustworthy := e.tpm(challenge).Some?);
        k'.(pend := StatusMessage(k'))
    case DomStatus => (
      match DecodeHost(h.got[0])
      case TpmSigned => d.(pc := DomSig)
      case TpmRefusedToSign =>
        if h.slot.Some? then d.(pc := Exit(Error)) else d.(pc := AuthReply, pend := [TPM_REFUSED_TO_SIGN])
      case _ => d.(pc := Exit(Error)))
    case DomSig => d.(pc := AuthReply, sig := Some(h.got), pend := [TPM_SIGNED] + h.got)
    case AuthReply => ActAuthReply(e, h)
    case Ready =>
      if DecodeClient(h.got[0]).Ready4pass? then d.(pc := Ask) else d.(pc := Exit(Error))
    case Ask => ActAsk(p, e, h)
    case HashReply =>
      var reply := DecodeClient(h.got[0]);
      if reply.GoodPass? then
        if e.mode.Enrol? && e.spawnFails(h.tries) then d.(pc := Exit(Error)) else d.(pc := ReadKeyfile)
      else if e.mode.Unlock? && (reply.PassLen? || reply.Blake2?) then NextTry(d)
      else d.(pc := Exit(Error))
    case ReadKeyfile => ActKeyfile(p, e, h)
    case DomResult =>
      if DecodeHost(h.got[0]).DecryptionSuccess? then
        d.(pc := DomWait, dpend := [if h.slot.Some? then h.slot.value else DO_NOTHING])
      else d.(pc := Exit(Error))
  }

  function ActAuthReply(e: HostEnv, h: Host): Host
    requires |h.got| == 1
  {
    var d := h.(got := []);
    var reply := DecodeClient(h.got[0]);
    if reply.GoodSig? then d.(pc := Ready, tries := 1)
    else if e.mode.Qubes? then
      if reply.InvalidSig? then d.(pc := Ready, tries := 1) else d.(pc := Exit(Error))
    else if reply.InvalidSig? || reply.MalformedSig? || reply.BadPubkey? then
      d.(pc := Ready, tries := 1, trustworthy := false)
    else d.(pc := Exit(Error))
  }

  function ActAsk(p: Primitives, e: HostEnv, h: Host): Host
    requires h.asked < |e.answers|
  {
    var d := h.(asked := h.asked + 1, told := []);
    if e.answers[h.asked].PromptFailed? then d.(pc := Exit(Error))
    else
      match Accept(e.mode, e.answers[h.asked])
      case None => h.(asked := h.asked + 1)
      case Some(pass) =>
        if p.argon2Fails(pass) then d.(pc := Exit(Error))
        else
          var hash := p.argon2(pass);
          d.(pc := HashReply, pass := pass, hash := hash,
             pend := Apply(p, Shared(p, e, h), h.encNonce, h.pos, hash),
             pos := h.pos + 32, used := h.used + [h.pos])
  }

  function NextTry(h: Host): Host {
    if h.tries >= 3 then h.(pc := Exit(Failure)) else h.(pc := Ready, tries := h.tries + 1)
  }

  function ActKeyfile(p: Primitives, e: HostEnv, h: Host): Host
    requires |h.got| == 32
  {
    var d := h.(got := []);
    var keyfile := Apply(p, Shared(p, e, h), h.encNonce, h.pos, h.got);
    var k := d.(pos := h.pos + 32, delivered := h.delivered + [Delivery(h.tries, h.asked, h.pass, keyfile)]);
    match e.mode
    case Unlock => (
      if e.spawnFails(h.tries) then d.(pc := Exit(Error)) else
      match e.unlock(h.tries, keyfile)
      case PipeFailed => k.(pc := Exit(Error), told := [DECRYPTION_ERROR], pend := [DECRYPTION_ERROR])
      case WaitFailed => k.(pc := Exit(Error))
      case Killed => NextTry(k.(told := [DECRYPTION_ERROR], pend := [DECRYPTION_ERROR]))
      case Exited(code) =>
        if code == 0 then
          k.(pc := Exit(Success), told := [DECRYPTION_SUCCESS], pend := [DECRYPTION_SUCCESS])
        else NextTry(k.(told := [DECRYPTION_ERROR], pend := [DECRYPTION_ERROR])))
    case Enrol =>
      var command := AddKey(|e.current|, e.current + keyfile);
      var a := k.(added := h.added + [command]);
      (match e.addKey(command.size, command.piped)
       case Exited(code) =>
         if code == 0 then
           a.(pc := Exit(Success), told := [DECRYPTION_SUCCESS], pend := [DECRYPTION_SUCCESS])
         else a.(pc := Exit(Failure), told := [DECRYPTION_ERROR], pend := [DECRYPTION_ERROR])
       case _ => a.(pc := Exit(Error)))
    case Qubes => k.(pc := DomResult, dpend := Qrexec.Encode(e.current, keyfile))
  }

  /** dom0's program has ended and its exit status is known. */
  function SeeExit(h: Host, ok: bool): Host {
    if ok then h.(pc := Exit(Success), told := [DECRYPTION_SUCCESS], pend := [DECRYPTION_SUCCESS])
    else h.(pc := Exit(Error))
  }

  function PcRank(pc: HostPc): nat {
    match pc
    case ReadNonce => 45
    case ReadEncNonce => 44
    case ReadTkeyPub => 43
    case DomStatus => 42
    case DomSig => 41
    case AuthReply => 40
    case Ready => 6
    case Ask => 5
    case HashReply => 4
    case ReadKeyfile => 3
    case DomResult => 2
    case DomWait => 1
    case Exit(_) => 0
  }

  /** Falls on every action, and when the exit of dom0's program is seen. */
  function Rank(e: HostEnv, h: Host): nat {
    PcRank(h.pc)
    + (if h.tries < 3 then 10 * (3 - h.tries) else 0)
    + (if h.asked < |e.answers| then |e.answers| - h.asked else 0)
  }

  /** Where an action can lead. */
  predicate Leads(h: Host, h': Host) {
    var stays := h'.tries == h.tries && h'.asked == h.asked;
    var next := h'.pc.Ready? && h'.tries == h.tries + 1 && h.tries < 3 && h'.asked == h.asked;
    match h.pc
    case ReadNonce => stays && h'.pc.ReadEncNonce?
    case ReadEncNonce => stays && h'.pc.ReadTkeyPub?
    case ReadTkeyPub => stays && (h'.pc.DomStatus? || h'.pc.AuthReply?)
    case DomStatus => stays && (h'.pc.DomSig? || h'.pc.AuthReply? || h'.pc.Exit?)
    case DomSig => stays && h'.pc.AuthReply?
    case AuthReply =>
      && h'.asked == h.asked && (h'.pc.Ready? || (h'.pc.Exit? && stays))
      && (h'.pc.Ready? ==> h'.tries == 1)
    case Ready => stays && (h'.pc.Ask? || h'.pc.Exit?)
    case Ask => h'.tries == h.tries && h'.asked == h.asked + 1 && (h'.pc.Ask? || h'.pc.HashReply? || h'.pc.Exit?)
    case HashReply => (stays && (h'.pc.ReadKeyfile? || h'.pc.Exit?)) || next
    case ReadKeyfile => (stays && (h'.pc.DomResult? || h'.pc.Exit?)) || next
    case DomResult => stays && (h'.pc.DomWait? || h'.pc.Exit?)
    case _ => false
  }

  lemma ActLeads(p: Primitives, e: HostEnv, h: Host)
    requires CanAct(e, h)
    ensures Leads(h, Act(p, e, h))
  {
  }

  lemma LeadsDown(e: HostEnv, h: Host, h': Host)
    requires Leads(h, h') && (h.pc.Ask? ==> h.asked < |e.answers|)
    ensures Rank(e, h') < Rank(e, h)
  {
  }

  lemma RankFalls(p: Primitives, e: HostEnv, h: Host)
    requires CanAct(e, h)
    ensures Rank(e, Act(p, e, h)) < Rank(e, h)
  {
    ActLeads(p, e, h);
    LeadsDown(e, h, Act(p, e, h));
  }

  /** What an action leaves alone. */
  predicate Keeps(h: Host, h': Host) {
    && h'.slot == h.slot && h'.got == []
    && (!h.pc.ReadNonce? ==> h'.nonce == h.nonce)
    && (!h.pc.ReadEncNonce? ==> h'.encNonce == h.encNonce)
    && (!h.pc.ReadTkeyPub? ==> h'.tkeyPub == h.tkeyPub)
    && (!h.pc.ReadTkeyPub? && !h.pc.DomSig? ==> h'.sig == h.sig)
    && (!h.pc.ReadTkeyPub? && !h.pc.AuthReply? ==> h'.trustworthy == h.trustworthy)
    && (!h.pc.Ask? ==> h'.pass == h.pass && h'.hash == h.hash && h'.used == h.used)
    && (!h.pc.Ask? && !h.pc.ReadKeyfile? ==> h'.pos == h.pos && h'.told == h.told)
    && (!h.pc.ReadKeyfile? ==> h'.delivered == h.delivered && h'.added == h.added)
    && (!h.pc.ReadTkeyPub? && !h.pc.ReadKeyfile? && !h.pc.DomResult? ==> h'.dpend == [])
  }

  lemma KeyfileKeeps(p: Primitives, e: HostEnv, h: Host)
    requires |h.got| == 32 && h.pc.ReadKeyfile?
    ensures Keeps(h, ActKeyfile(p, e, h))
  {
  }

  lemma AskKeeps(p: Primitives, e: HostEnv, h: Host)
    requires CanAct(e, h) && h.pc.Ask?
    ensures Keeps(h, ActAsk(p, e, h))
  {
  }

  lemma VerdictKeeps(p: Primitives, e: HostEnv, h: Host)
    requires CanAct(e, h) && h.pc.AuthReply?
    ensures Keeps(h, Act(p, e, h))
  {
  }

  lemma RepliesKeep(p: Primitives, e: HostEnv, h: Host)
    requires CanAct(e, h) && (h.pc.Ready? || h.pc.HashReply? || h.pc.DomResult?)
    ensures Keeps(h, Act(p, e, h))
  {
  }

  lemma HandshakeKeeps(p: Primitives, e: HostEnv, h: Host)
    requires CanAct(e, h)
    requires h.pc.ReadNonce? || h.pc.ReadEncNonce? || h.pc.ReadTkeyPub? || h.pc.DomStatus? || h.pc.DomSig?
    ensures Keeps(h, Act(p, e, h))
  {
  }

  lemma ActKeeps(p: Primitives, e: HostEnv, h: Host)
    requires CanAct(e, h)
    ensures Keeps(h, Act(p, e, h))
  {
    if h.pc.ReadKeyfile? {
      KeyfileKeeps(p, e, h);
    } else if h.pc.Ask? {
      AskKeeps(p, e, h);
    } else if h.pc.AuthReply? {
      VerdictKeeps(p, e, h);
    } else if h.pc.Ready? || h.pc.HashReply? || h.pc.DomResult? {
      RepliesKeep(p, e, h);
    } else {
      HandshakeKeeps(p, e, h);
    }
  }

  /** How an answered prompt leaves the host: with an encrypted hash to send, asking again, or
      giving up. */
  predicate PromptAnswered(p: Primitives, e: HostEnv, h: Host, h': Host)
    requires h.asked < |e.answers|
  {
    var answer := e.answers[h.asked];
    match h'.pc
    case HashReply =>
      && answer.Typed? && Accept(e.mode, answer) == Some(h'.pass) && !p.argon2Fails(h'.pass)
      && h'.hash == p.argon2(h'.pass) && h'.told == []
      && h'.pend == Apply(p, Shared(p, e, h), h.encNonce, h.pos, h'.hash)
      && h'.pos == h.pos + 32 && h'.used == h.used + [h.pos]
    case Ask => h' == h.(asked := h.asked + 1) && answer.Typed? && Accept(e.mode, answer).None?
    case Exit(code) => code == Error && h'.pend == [] && h'.told == [] && h'.pos == h.pos && h'.used == h.used
    case _ => false
  }

  lemma ActAnswersPrompt(p: Primitives, e: HostEnv, h: Host)
    requires CanAct(e, h) && h.pc.Ask?
    ensures PromptAnswered(p, e, h, Act(p, e, h))
  {
  }

  /** What the host has in hand when it has decrypted a keyfile. */
  function InHand(p: Primitives, e: HostEnv, h: Host): Delivery {
    Delivery(h.tries, h.asked, h.pass, Apply(p, Shared(p, e, h), h.encNonce, h.pos, h.got))
  }

  /** Whether cryptsetup opened the disk with this keyfile. */
  predicate Opened(e: HostEnv, d: Delivery) {
    e.unlock(d.attempt, d.keyfile) == Exited(0)
  }

  /** cryptsetup has run to its end and reports a failure. */
  predicate FailsWith(outcome: Cryptsetup) {
    outcome.Exited? && outcome.code != 0
  }

  /** How the action that reads a keyfile leaves the host: the keyfile handed over or not, the
      verdict told to the TKey, and the command run. */
  predicate KeyfileRead(p: Primitives, e: HostEnv, h: Host, h': Host) {
    var d := InHand(p, e, h);
    var handed := h'.delivered == h.delivered + [d] && h'.pos == h.pos + 32;
    var refused := h'.delivered == h.delivered && h'.pos == h.pos && h'.pc == Exit(Error);
    && (handed || refused)
    && (if h'.pc.Ready? || h'.pc == Exit(Failure) then h'.told == [DECRYPTION_ERROR]
        else if h'.pc == Exit(Success) then h'.told == [DECRYPTION_SUCCESS]
        else h'.told == h.told || (h'.told == [DECRYPTION_ERROR] && h'.pc.Exit?))
    && (h'.pend == h'.told || (h'.pend == [] && h'.told == h.told))
    && (match e.mode
        case Unlock =>
          && (h'.pc.Ready? || h'.pc.Exit?) && h'.added == h.added && h'.dpend == []
          && (h'.pc == Exit(Success) <==> handed && Opened(e, d))
          && (h'.pc == Exit(Failure) ==> h.tries >= 3)
        case Enrol =>
          var command := AddKey(|e.current|, e.current + d.keyfile);
          && h'.pc.Exit? && h'.dpend == []
          && h'.added == (if handed then h.added + [command] else h.added)
          && (h'.pc == Exit(Success) <==> handed && e.addKey(command.size, command.piped) == Exited(0))
          && (h'.pc == Exit(Failure) <==> handed && FailsWith(e.addKey(command.size, command.piped)))
          && (h'.pc == Exit(Error) ==> h'.told == h.told)
        case Qubes =>
          && h'.pc.DomResult? && h'.added == h.added && h'.pend == []
          && h'.dpend == Qrexec.Encode(e.current, d.keyfile))
  }

  lemma UnlockReadsKeyfile(p: Primitives, e: HostEnv, h: Host)
    requires |h.got| == 32 && h.pend == [] && h.dpend == [] && e.mode.Unlock?
    ensures KeyfileRead(p, e, h, ActKeyfile(p, e, h))
  {
    assert |ActKeyfile(p, e, h).delivered| == |h.delivered| || |ActKeyfile(p, e, h).delivered| == |h.delivered| + 1;
  }

  lemma EnrolReadsKeyfile(p: Primitives, e: HostEnv, h: Host)
    requires |h.got| == 32 && h.pend == [] && h.dpend == [] && !e.mode.Unlock?
    ensures KeyfileRead(p, e, h, ActKeyfile(p, e, h))
  {
    assert |ActKeyfile(p, e, h).delivered| == |h.delivered| || |ActKeyfile(p, e, h).delivered| == |h.delivered| + 1;
  }

  lemma ActReadsKeyfile(p: Primitives, e: HostEnv, h: Host)
    requires CanAct(e, h) && h.pc.ReadKeyfile?
    ensures KeyfileRead(p, e, h, Act(p, e, h))
  {
    if e.mode.Unlock? {
      UnlockReadsKeyfile(p, e, h);
    } else {
      EnrolReadsKeyfile(p, e, h);
    }
  }

  datatype Outcome = Outcome(h: Host, out: bytes, dout: bytes, rest: bytes, drest: bytes)

  predicate Blocked(e: HostEnv, h: Host, input: bytes, dinput: bytes) {
    || h.pc.Exit? || h.pc.DomWait?
    || |if FromDom(h) then dinput else input| < Need(h)
    || (h.pc.Ask? && |e.answers| <= h.asked)
  }

  /** The state with the bytes of its next read taken from the right input. */
  function Fed(e: HostEnv, h: Host, input: bytes, dinput: bytes): (r: Host)
    requires !Blocked(e, h, input, dinput)
    ensures CanAct(e, r)
  {
    h.(pend := [], dpend := [], got := if FromDom(h) then dinput[..Need(h)] else input[..Need(h)])
  }

  /** The state with its output gone. */
  function Sent(h: Host): Host {
    h.(pend := [], dpend := [])
  }

  lemma FedRankFalls(p: Primitives, e: HostEnv, h: Host, input: bytes, dinput: bytes)
    requires !Blocked(e, h, input, dinput)
    ensures Rank(e, Sent(Act(p, e, Fed(e, h, input, dinput)))) < Rank(e, h)
  {
    var ready := Fed(e, h, input, dinput);
    RankFalls(p, e, ready);
    assert Rank(e, ready) == Rank(e, h);
  }

  /** The whole program on given inputs from the TKey and from dom0. */
  function Run(p: Primitives, e: HostEnv, h: Host, input: bytes, dinput: bytes, out: bytes, dout: bytes): Outcome
    decreases Rank(e, h)
  {
    if Blocked(e, h, input, dinput) then Outcome(h, out, dout, input, dinput)
    else
      FedRankFalls(p, e, h, input, dinput);
      var d := Act(p, e, Fed(e, h, input, dinput));
      var n := Need(h);
      if FromDom(h) then Run(p, e, Sent(d), input, dinput[n..], out + d.pend, dout + d.dpend)
      else Run(p, e, Sent(d), input[n..], dinput, out + d.pend, dout + d.dpend)
  }

  // ----- The Qubes program to its end -----

  /** What becomes of a program that waits for dom0's, once the exit status of that is known. */
  function Concluded(o: Outcome, domExit: Option<bool>): Outcome {
    if o.h.pc.DomWait? && domExit.Some? then
      var h := SeeExit(o.h, domExit.value);
      o.(h := Sent(h), out := o.out + if domExit.value then [DECRYPTION_SUCCESS] else [])
    else o
  }

  lemma QubesTellsNothing(p: Primitives, e: HostEnv, h: Host)
    requires CanAct(e, h) && e.mode.Qubes? && h.told == []
    ensures Act(p, e, h).told == [] && Act(p, e, h).pc != Exit(Success)
  {
    if h.pc.ReadKeyfile? {
      assert ActKeyfile(p, e, h).told == [];
    } else {
      ActKeeps(p, e, h);
    }
  }

  lemma {:induction false} QubesRunTellsNothing(
    p: Primitives, e: HostEnv, h: Host, input: bytes, dinput: bytes, out: bytes, dout: bytes)
    requires e.mode.Qubes? && h.told == [] && h.pc != Exit(Success)
    ensures
      var end := Run(p, e, h, input, dinput, out, dout).h;
      end.told == [] && end.pc != Exit(Success)
    decreases Rank(e, h)
  {
    if !Blocked(e, h, input, dinput) {
      FedRankFalls(p, e, h, input, dinput);
      var d := Act(p, e, Fed(e, h, input, dinput));
      QubesTellsNothing(p, e, Fed(e, h, input, dinput));
      var n := Need(h);
      if FromDom(h) {
        QubesRunTellsNothing(p, e, Sent(d), input, dinput[n..], out + d.pend, dout + d.dpend);
      } else {
        QubesRunTellsNothing(p, e, Sent(d), input[n..], dinput, out + d.pend, dout + d.dpend);
      }
    }
  }

  /** On any inputs the Qubes program succeeds, and tells the TKey so as its last byte, exactly
      if it has come to wait for dom0's program and that ends well. */
  lemma OnlyAGoodExitSucceeds(p: Primitives, e: HostEnv, input: bytes, dinput: bytes, domExit: Option<bool>)
    requires e.mode.Qubes?
    ensures
      var o := Run(p, e, InitHost(e), input, dinput, [], []);
      var end := Concluded(o, domExit);
      var good := o.h.pc.DomWait? && domExit == Some(true);
      && (end.h.pc == Exit(Success) <==> good)
      && (end.h.told == [DECRYPTION_SUCCESS] <==> good)
      && end.out == o.out + if good then [DECRYPTION_SUCCESS] else []
  {
    QubesRunTellsNothing(p, e, InitHost(e), input, dinput, [], []);
    var o := Run(p, e, InitHost(e), input, dinput, [], []);
    assert o.out + [] == o.out;
  }
}
