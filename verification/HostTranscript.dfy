/** All that can be seen of the three host programs from outside, for any bytes from the TKey and
    from dom0: what they write, by value and place, how much they read, which keyfiles they hand
    on, and how they stop.  Written from the wire's point of view, with no states in it. */
module HostTranscript {
  import opened Bytes
  import opened Primitives
  import opened StreamCipher
  import opened HostMachine
  import opened HostSteps
  import Qrexec

  /** What is left of the two inputs, and what has been written. */
  datatype Wires = Wires(input: bytes, dinput: bytes, out: bytes, dout: bytes)
  {
    function Take(n: nat): Wires
      requires n <= |input|
    {
      this.(input := input[n..])
    }

    function TakeDom(n: nat): Wires
      requires n <= |dinput|
    {
      this.(dinput := dinput[n..])
    }

    function Put(data: bytes): Wires {
      this.(out := out + data)
    }

    function PutDom(data: bytes): Wires {
      this.(dout := dout + data)
    }
  }

  datatype Stop = ReadsTkey(n: nat) | ReadsDom(n: nat) | Prompts | AwaitsDom | Exits(code: ExitCode)

  /** `asked` answers used, keyfiles handed on, and whether the user is told to trust the system. */
  datatype Seen = Seen(w: Wires, asked: nat, handed: seq<bytes>, trusted: bool, stop: Stop)

  /** What the handshake has settled. */
  datatype Keys = Keys(shared: bytes, encNonce: bytes, trusted: bool)

  function HostSeen(p: Primitives, e: HostEnv, input: bytes, dinput: bytes): Seen {
    var w := Wires(input, dinput, [], []);
    if e.mode.Qubes? && Qrexec.ParseSlot(e.argv).BadSlot? then Seen(w, 0, [], false, Exits(Error))
    else if |input| < 32 then Seen(w, 0, [], false, ReadsTkey(32))
    else if |input| < 44 then Seen(w.Take(32), 0, [], false, ReadsTkey(12))
    else if |input| < 76 then Seen(w.Take(44).Put(p.pub(e.secret)), 0, [], false, ReadsTkey(32))
    else Handshake(p, e, input[..32], input[32..44], input[44..76], w.Take(76).Put(p.pub(e.secret)))
  }

  /** The four parts of the challenge, in their order, go to the TPM or to dom0. */
  function Handshake(p: Primitives, e: HostEnv, nonce: bytes, encNonce: bytes, tkeyPub: bytes, w: Wires): Seen {
    var challenge := nonce + p.pub(e.secret) + tkeyPub + encNonce;
    var shared := p.dh(e.secret, tkeyPub);
    if e.mode.Qubes? then Relay(p, e, Keys(shared, encNonce, false), w.PutDom(challenge))
    else
      match e.tpm(challenge)
      case None => Verdict(p, e, Keys(shared, encNonce, false), w.Put([0x90]))
      case Some(sig) => Verdict(p, e, Keys(shared, encNonce, true), w.Put([0x97] + sig))
  }

  /** dom0's answer, passed on; a refusal only if no slot is to be killed. */
  function Relay(p: Primitives, e: HostEnv, k: Keys, w: Wires): Seen {
    if w.dinput == [] then Seen(w, 0, [], false, ReadsDom(1))
    else if w.dinput[0] == 0x97 then
      if |w.dinput| < 65 then Seen(w.TakeDom(1), 0, [], false, ReadsDom(64))
      else Verdict(p, e, k, w.TakeDom(65).Put([0x97] + w.dinput[1..65]))
    else if w.dinput[0] == 0x90 && Qrexec.ParseSlot(e.argv).NoSlot? then
      Verdict(p, e, k, w.TakeDom(1).Put([0x90]))
    else Seen(w.TakeDom(1), 0, [], false, Exits(Error))
  }

  /** The TKey's verdict; the Qubes program goes on after two of its errors fewer. */
  function Verdict(p: Primitives, e: HostEnv, k: Keys, w: Wires): Seen {
    if w.input == [] then Seen(w, 0, [], k.trusted, ReadsTkey(1))
    else if w.input[0] == 0x20 then Tries(p, e, k, 1, 0, 0, [], w.Take(1))
    else if w.input[0] == 0x13 || (!e.mode.Qubes? && (w.input[0] == 0x12 || w.input[0] == 0x14)) then
      Tries(p, e, k.(trusted := false), 1, 0, 0, [], w.Take(1))
    else Seen(w.Take(1), 0, [], k.trusted, Exits(Error))
  }

  /** Try `n`, with `pos` bytes of keystream used. */
  function Tries(
    p: Primitives, e: HostEnv, k: Keys, n: nat, pos: nat, asked: nat, handed: seq<bytes>, w: Wires): Seen
    decreases |e.answers| - asked, 1
  {
    if w.input == [] then Seen(w, asked, handed, k.trusted, ReadsTkey(1))
    else if w.input[0] == 0x22 then Prompt(p, e, k, n, pos, asked, handed, w.Take(1))
    else Seen(w.Take(1), asked, handed, k.trusted, Exits(Error))
  }

  /** What the prompts of the three programs are content with. */
  predicate Fits(m: Mode, first: bytes, second: bytes) {
    match m
    case Unlock => 9 <= |first|
    case Enrol => first == second && 8 <= |first|
    case Qubes => first == second && 8 <= |first| <= 255
  }

  function Pass(m: Mode, first: bytes): bytes {
    if m.Unlock? && first != [] then first[..|first| - 1] else first
  }

  function Prompt(
    p: Primitives, e: HostEnv, k: Keys, n: nat, pos: nat, asked: nat, handed: seq<bytes>, w: Wires): Seen
    decreases |e.answers| - asked, 0
  {
    if |e.answers| <= asked then Seen(w, asked, handed, k.trusted, Prompts)
    else
      match e.answers[asked]
      case PromptFailed => Seen(w, asked + 1, handed, k.trusted, Exits(Error))
      case Typed(first, second) =>
        if !Fits(e.mode, first, second) then Prompt(p, e, k, n, pos, asked + 1, handed, w)
        else if p.argon2Fails(Pass(e.mode, first)) then Seen(w, asked + 1, handed, k.trusted, Exits(Error))
        else
          var hash := p.argon2(Pass(e.mode, first));
          Replied(p, e, k, n, pos + 32, asked + 1, handed, w.Put(Apply(p, k.shared, k.encNonce, pos, hash)))
  }

  /** The TKey's reply to the hash. */
  function Replied(
    p: Primitives, e: HostEnv, k: Keys, n: nat, pos: nat, asked: nat, handed: seq<bytes>, w: Wires): Seen
    decreases |e.answers| - asked, 5
  {
    if w.input == [] then Seen(w, asked, handed, k.trusted, ReadsTkey(1))
    else
      var b, w' := w.input[0], w.Take(1);
      if b == 0x21 && !(e.mode.Enrol? && e.spawnFails(n)) then HandOn(p, e, k, n, pos, asked, handed, w')
      else if (b == 0x10 || b == 0x11) && e.mode.Unlock? then Again(p, e, k, n, pos, asked, handed, w')
      else Seen(w', asked, handed, k.trusted, Exits(Error))
  }

  function Again(
    p: Primitives, e: HostEnv, k: Keys, n: nat, pos: nat, asked: nat, handed: seq<bytes>, w: Wires): Seen
    decreases |e.answers| - asked, 2
  {
    if n >= 3 then Seen(w, asked, handed, k.trusted, Exits(Failure))
    else Tries(p, e, k, n + 1, pos, asked, handed, w)
  }

  /** The keyfile, decrypted and handed on. */
  function HandOn(
    p: Primitives, e: HostEnv, k: Keys, n: nat, pos: nat, asked: nat, handed: seq<bytes>, w: Wires): Seen
    decreases |e.answers| - asked, 4
  {
    if |w.input| < 32 then Seen(w, asked, handed, k.trusted, ReadsTkey(32))
    else
      var keyfile := Apply(p, k.shared, k.encNonce, pos, w.input[..32]);
      var w' := w.Take(32);
      match e.mode
      case Unlock =>
        if e.spawnFails(n) then Seen(w', asked, handed, k.trusted, Exits(Error))
        else Opening(p, e, k, n, pos + 32, asked, handed + [keyfile], e.unlock(n, keyfile), w')
      case Enrol => Adding(k, asked, handed + [keyfile], e.addKey(|e.current|, e.current + keyfile), w')
      case Qubes =>
        DomAdds(e, k, asked, handed + [keyfile], w'.PutDom([|e.current| % 256] + e.current + keyfile))
  }

  /** What cryptsetup made of it when unlocking. */
  function Opening(
    p: Primitives, e: HostEnv, k: Keys, n: nat, pos: nat, asked: nat, handed: seq<bytes>, outcome: Cryptsetup,
    w: Wires): Seen
    decreases |e.answers| - asked, 3
  {
    match outcome
    case PipeFailed => Seen(w.Put([0x98]), asked, handed, k.trusted, Exits(Error))
    case WaitFailed => Seen(w, asked, handed, k.trusted, Exits(Error))
    case Killed => Again(p, e, k, n, pos, asked, handed, w.Put([0x98]))
    case Exited(code) =>
      if code == 0 then Seen(w.Put([0x99]), asked, handed, k.trusted, Exits(Success))
      else Again(p, e, k, n, pos, asked, handed, w.Put([0x98]))
  }

  /** What luksAddKey made of it when enrolling. */
  function Adding(k: Keys, asked: nat, handed: seq<bytes>, outcome: Cryptsetup, w: Wires): Seen {
    match outcome
    case Exited(code) =>
      if code == 0 then Seen(w.Put([0x99]), asked, handed, k.trusted, Exits(Success))
      else Seen(w.Put([0x98]), asked, handed, k.trusted, Exits(Failure))
    case _ => Seen(w, asked, handed, k.trusted, Exits(Error))
  }

  /** dom0's word on it, and the slot byte for dom0. */
  function DomAdds(e: HostEnv, k: Keys, asked: nat, handed: seq<bytes>, w: Wires): Seen {
    if w.dinput == [] then Seen(w, asked, handed, k.trusted, ReadsDom(1))
    else if w.dinput[0] == 0x99 then
      var slot := match Qrexec.ParseSlot(e.argv) case Slot(s) => s case _ => 0x91;
      Seen(w.TakeDom(1).PutDom([slot]), asked, handed, k.trusted, AwaitsDom)
    else Seen(w.TakeDom(1), asked, handed, k.trusted, Exits(Error))
  }

  // ----- The machine is seen to do this -----

  predicate Shows(o: Outcome, s: Seen) {
    && Wires(o.rest, o.drest, o.out, o.dout) == s.w
    && o.h.asked == s.asked && Keyfiles(o.h.delivered) == s.handed && o.h.trustworthy == s.trusted
    && match s.stop
       case ReadsTkey(n) => !FromDom(o.h) && !o.h.pc.Exit? && Need(o.h) == n
       case ReadsDom(n) => FromDom(o.h) && Need(o.h) == n
       case Prompts => o.h.pc.Ask?
       case AwaitsDom => o.h.pc.DomWait?
       case Exits(code) => o.h.pc == Exit(code)
  }

  function RunOn(p: Primitives, e: HostEnv, m: Host, w: Wires): Outcome {
    Run(p, e, m, w.input, w.dinput, w.out, w.dout)
  }

  /** The machine after the handshake: all sent and read, on try `n`. */
  predicate At(p: Primitives, e: HostEnv, m: Host, k: Keys, n: nat, pos: nat, asked: nat, handed: seq<bytes>) {
    && Idle(m) && SlotKept(e, m)
    && m.tries == n && m.pos == pos && m.asked == asked && Keyfiles(m.delivered) == handed
    && Shared(p, e, m) == k.shared && m.encNonce == k.encNonce && m.trustworthy == k.trusted
  }

  predicate SlotKept(e: HostEnv, m: Host) {
    e.mode.Qubes? ==>
      match Qrexec.ParseSlot(e.argv)
      case Slot(s) => m.slot == Some(s)
      case _ => m.slot == None
  }

  lemma RunOnWith(p: Primitives, e: HostEnv, m: Host, w: Wires, n: nat)
    requires n <= |w.input|
    ensures RunOn(p, e, m, w) == Run(p, e, m, w.input[..n] + w.input[n..], w.dinput, w.out, w.dout)
    ensures w.Put([]) == w && w.PutDom([]) == w
  {
    assert w.input == w.input[..n] + w.input[n..];
    assert w.out + [] == w.out && w.dout + [] == w.dout;
  }

  lemma RunOnWithDom(p: Primitives, e: HostEnv, m: Host, w: Wires, n: nat)
    requires n <= |w.dinput|
    ensures RunOn(p, e, m, w) == Run(p, e, m, w.input, w.dinput[..n] + w.dinput[n..], w.out, w.dout)
    ensures w.Put([]) == w && w.PutDom([]) == w
  {
    assert w.dinput == w.dinput[..n] + w.dinput[n..];
    assert w.out + [] == w.out && w.dout + [] == w.dout;
  }

  lemma {:induction false} TriesShow(
    p: Primitives, e: HostEnv, m: Host, k: Keys, n: nat, pos: nat, asked: nat, handed: seq<bytes>, w: Wires)
    requires m.pc.Ready? && At(p, e, m, k, n, pos, asked, handed)
    ensures Shows(RunOn(p, e, m, w), Tries(p, e, k, n, pos, asked, handed, w))
    decreases |e.answers| - asked, 1
  {
    if w.input != [] {
      RunOnWith(p, e, m, w, 1);
      var m' := ReadyActs(p, e, m, w.input[..1], w.input[1..], w.dinput, w.out, w.dout);
      assert RunOn(p, e, m, w) == RunOn(p, e, m', w.Take(1));
      if w.input[0] == 0x22 {
        PromptShows(p, e, m', k, n, pos, asked, handed, w.Take(1));
      }
    }
  }

  lemma FitsIsAccepted(m: Mode, first: bytes, second: bytes)
    ensures Accept(m, Typed(first, second)) ==
              if Fits(m, first, second) then Some(Pass(m, first)) else None
  {
  }

  /** One answer of the user. */
  lemma PromptActs(
    p: Primitives, e: HostEnv, m: Host, k: Keys, n: nat, pos: nat, asked: nat, handed: seq<bytes>, w: Wires)
    returns (m': Host)
    requires m.pc.Ask? && At(p, e, m, k, n, pos, asked, handed) && asked < |e.answers|
    ensures match AnsweredBy(p, e, e.answers[asked])
            case Rejected =>
              m'.pc.Ask? && At(p, e, m', k, n, pos, asked + 1, handed) && RunOn(p, e, m, w) == RunOn(p, e, m', w)
            case NoAnswer =>
              && m'.pc == Exit(Error) && At(p, e, m', k, n, pos, asked + 1, handed)
              && RunOn(p, e, m, w) == RunOn(p, e, m', w)
            case Accepted(pass) =>
              && m'.pc.HashReply? && At(p, e, m', k, n, pos + 32, asked + 1, handed)
              && RunOn(p, e, m, w) == RunOn(p, e, m', w.Put(Apply(p, k.shared, k.encNonce, pos, p.argon2(pass))))
  {
    var sent;
    m', sent := AskActs(p, e, m, w.input, w.dinput, w.out, w.dout);
    assert RunOn(p, e, m, w) == RunOn(p, e, m', w.Put(sent));
    RunOnWith(p, e, m, w, 0);
  }

  lemma {:induction false} PromptShows(
    p: Primitives, e: HostEnv, m: Host, k: Keys, n: nat, pos: nat, asked: nat, handed: seq<bytes>, w: Wires)
    requires m.pc.Ask? && At(p, e, m, k, n, pos, asked, handed)
    ensures Shows(RunOn(p, e, m, w), Prompt(p, e, k, n, pos, asked, handed, w))
    decreases |e.answers| - asked, 0
  {
    if asked < |e.answers| {
      var m' := PromptActs(p, e, m, k, n, pos, asked, handed, w);
      if e.answers[asked].Typed? {
        var first, second := e.answers[asked].first, e.answers[asked].second;
        FitsIsAccepted(e.mode, first, second);
        if !Fits(e.mode, first, second) {
          PromptShows(p, e, m', k, n, pos, asked + 1, handed, w);
        } else if !p.argon2Fails(Pass(e.mode, first)) {
          var hash := p.argon2(Pass(e.mode, first));
          RepliedShows(p, e, m', k, n, pos + 32, asked + 1, handed,
                       w.Put(Apply(p, k.shared, k.encNonce, pos, hash)));
        }
      }
    }
  }

  lemma {:induction false} RepliedShows(
    p: Primitives, e: HostEnv, m: Host, k: Keys, n: nat, pos: nat, asked: nat, handed: seq<bytes>, w: Wires)
    requires m.pc.HashReply? && At(p, e, m, k, n, pos, asked, handed)
    ensures Shows(RunOn(p, e, m, w), Replied(p, e, k, n, pos, asked, handed, w))
    decreases |e.answers| - asked, 5
  {
    if w.input != [] {
      RunOnWith(p, e, m, w, 1);
      var m' := HashReplyActs(p, e, m, w.input[..1], w.input[1..], w.dinput, w.out, w.dout);
      assert RunOn(p, e, m, w) == RunOn(p, e, m', w.Take(1));
      var b := w.input[0];
      if b == 0x21 && !(e.mode.Enrol? && e.spawnFails(n)) {
        HandOnShows(p, e, m', k, n, pos, asked, handed, w.Take(1));
      } else if (b == 0x10 || b == 0x11) && e.mode.Unlock? {
        AgainShows(p, e, m', k, n, pos, asked, handed, w.Take(1));
      }
    }
  }

  lemma {:induction false} AgainShows(
    p: Primitives, e: HostEnv, m: Host, k: Keys, n: nat, pos: nat, asked: nat, handed: seq<bytes>, w: Wires)
    requires if n >= 3 then m.pc == Exit(Failure) && At(p, e, m, k, n, pos, asked, handed)
             else m.pc.Ready? && At(p, e, m, k, n + 1, pos, asked, handed)
    ensures Shows(RunOn(p, e, m, w), Again(p, e, k, n, pos, asked, handed, w))
    decreases |e.answers| - asked, 2
  {
    if n < 3 {
      TriesShow(p, e, m, k, n + 1, pos, asked, handed, w);
    }
  }

  lemma {:induction false} HandOnShows(
    p: Primitives, e: HostEnv, m: Host, k: Keys, n: nat, pos: nat, asked: nat, handed: seq<bytes>, w: Wires)
    requires m.pc.ReadKeyfile? && At(p, e, m, k, n, pos, asked, handed)
    ensures Shows(RunOn(p, e, m, w), HandOn(p, e, k, n, pos, asked, handed, w))
    decreases |e.answers| - asked, 4
  {
    if |w.input| >= 32 {
      match e.mode
      case Unlock =>
        if e.spawnFails(n) {
          RunOnWith(p, e, m, w, 32);
          UnlockDoesNotStart(p, e, m, w.input[..32], w.input[32..], w.dinput, w.out, w.dout);
          assert RunOn(p, e, m, w) == RunOn(p, e, m.(pc := Exit(Error)), w.Take(32));
        } else {
          OpeningShows(p, e, m, k, n, pos, asked, handed, w);
        }
      case Enrol => AddingShows(p, e, m, k, n, pos, asked, handed, w);
      case Qubes => DomAddsShows(p, e, m, k, n, pos, asked, handed, w);
    }
  }

  lemma {:induction false} OpeningShows(
    p: Primitives, e: HostEnv, m: Host, k: Keys, n: nat, pos: nat, asked: nat, handed: seq<bytes>, w: Wires)
    requires m.pc.ReadKeyfile? && At(p, e, m, k, n, pos, asked, handed)
    requires |w.input| >= 32 && e.mode.Unlock? && !e.spawnFails(n)
    ensures
      var keyfile := Apply(p, k.shared, k.encNonce, pos, w.input[..32]);
      Shows(RunOn(p, e, m, w),
            Opening(p, e, k, n, pos + 32, asked, handed + [keyfile], e.unlock(n, keyfile), w.Take(32)))
    decreases |e.answers| - asked, 3
  {
    var got := w.input[..32];
    var keyfile := Apply(p, k.shared, k.encNonce, pos, got);
    RunOnWith(p, e, m, w, 32);
    var m' := UnlockActs(p, e, m, got, w.input[32..], w.dinput, w.out, w.dout);
    var w' := w.Take(32).Put(VerdictOf(e.unlock(n, keyfile)));
    MoreKeyfiles(m.delivered, InHand(p, e, m.(got := got)));
    assert RunOn(p, e, m, w) == RunOn(p, e, m', w');
    if ResultOf(e.unlock(n, keyfile)).WrongKey? {
      AgainShows(p, e, m', k, n, pos + 32, asked, handed + [keyfile], w');
    }
    assert w.Take(32).Put([]) == w.Take(32) by { RunOnWith(p, e, m, w.Take(32), 0); }
  }

  lemma AddingShows(
    p: Primitives, e: HostEnv, m: Host, k: Keys, n: nat, pos: nat, asked: nat, handed: seq<bytes>, w: Wires)
    requires m.pc.ReadKeyfile? && At(p, e, m, k, n, pos, asked, handed) && |w.input| >= 32 && e.mode.Enrol?
    ensures
      var keyfile := Apply(p, k.shared, k.encNonce, pos, w.input[..32]);
      Shows(RunOn(p, e, m, w),
            Adding(k, asked, handed + [keyfile], e.addKey(|e.current|, e.current + keyfile), w.Take(32)))
  {
    var got := w.input[..32];
    RunOnWith(p, e, m, w, 32);
    var m' := EnrolActs(p, e, m, got, w.input[32..], w.dinput, w.out, w.dout);
    var keyfile := Apply(p, k.shared, k.encNonce, pos, got);
    MoreKeyfiles(m.delivered, InHand(p, e, m.(got := got)));
    var outcome := e.addKey(|e.current|, e.current + keyfile);
    assert RunOn(p, e, m, w) == RunOn(p, e, m', w.Take(32).Put(EnrolVerdict(outcome)));
    RunOnWith(p, e, m, w.Take(32), 0);
  }

  lemma DomAddsShows(
    p: Primitives, e: HostEnv, m: Host, k: Keys, n: nat, pos: nat, asked: nat, handed: seq<bytes>, w: Wires)
    requires m.pc.ReadKeyfile? && At(p, e, m, k, n, pos, asked, handed) && |w.input| >= 32 && e.mode.Qubes?
    ensures
      var keyfile := Apply(p, k.shared, k.encNonce, pos, w.input[..32]);
      Shows(RunOn(p, e, m, w),
            DomAdds(e, k, asked, handed + [keyfile], w.Take(32).PutDom([|e.current| % 256] + e.current + keyfile)))
  {
    var got := w.input[..32];
    RunOnWith(p, e, m, w, 32);
    var m' := ForwardActs(p, e, m, got, w.input[32..], w.dinput, w.out, w.dout);
    var keyfile := Apply(p, k.shared, k.encNonce, pos, got);
    MoreKeyfiles(m.delivered, InHand(p, e, m.(got := got)));
    var w' := w.Take(32).PutDom([|e.current| % 256] + e.current + keyfile);
    assert RunOn(p, e, m, w) == RunOn(p, e, m', w');
    ResultShows(p, e, m', k, n, asked, handed + [keyfile], w');
  }

  lemma ResultShows(
    p: Primitives, e: HostEnv, m: Host, k: Keys, n: nat, asked: nat, handed: seq<bytes>, w: Wires)
    requires m.pc.DomResult? && At(p, e, m, k, n, m.pos, asked, handed) && e.mode.Qubes?
    ensures Shows(RunOn(p, e, m, w), DomAdds(e, k, asked, handed, w))
  {
    if w.dinput != [] {
      RunOnWithDom(p, e, m, w, 1);
      var m' := DomResultActs(p, e, m, w.dinput[..1], w.input, w.dinput[1..], w.out, w.dout);
      var sent := if m'.pc.DomWait? then [if m.slot.Some? then m.slot.value else 0x91] else [];
      assert RunOn(p, e, m, w) == RunOn(p, e, m', w.TakeDom(1).PutDom(sent));
      RunOnWithDom(p, e, m, w.TakeDom(1), 0);
    }
  }

  // ----- The handshake -----

  /** The machine before the first try. */
  predicate Fresh(e: HostEnv, m: Host) {
    && Idle(m) && SlotKept(e, m)
    && m.tries == 0 && m.pos == 0 && m.asked == 0 && m.delivered == []
  }

  lemma VerdictShows(p: Primitives, e: HostEnv, m: Host, k: Keys, w: Wires)
    requires m.pc.AuthReply? && Fresh(e, m) && At(p, e, m, k, 0, 0, 0, [])
    requires e.mode.Qubes? ==> !k.trusted
    ensures Shows(RunOn(p, e, m, w), Verdict(p, e, k, w))
  {
    if w.input != [] {
      RunOnWith(p, e, m, w, 1);
      var b := w.input[0];
      var m' := VerdictActs(p, e, m, w);
      if b == 0x20 {
        TriesShow(p, e, m', k, 1, 0, 0, [], w.Take(1));
      } else if b == 0x13 || (!e.mode.Qubes? && (b == 0x12 || b == 0x14)) {
        TriesShow(p, e, m', k.(trusted := false), 1, 0, 0, [], w.Take(1));
      }
    }
  }

  lemma VerdictActs(p: Primitives, e: HostEnv, m: Host, w: Wires) returns (m': Host)
    requires m.pc.AuthReply? && Idle(m) && w.input != [] && (e.mode.Qubes? ==> !m.trustworthy)
    ensures
      var b := w.input[0];
      m' == if b == 0x20 then m.(pc := Ready, tries := 1)
            else if b == 0x13 || (!e.mode.Qubes? && (b == 0x12 || b == 0x14))
            then m.(pc := Ready, tries := 1, trustworthy := false)
            else m.(pc := Exit(Error))
    ensures RunOn(p, e, m, w) == RunOn(p, e, m', w.Take(1))
  {
    RunOnWith(p, e, m, w, 1);
    if e.mode.Qubes? {
      m' := QubesReplyActs(p, e, m, w.input[..1], w.input[1..], w.dinput, w.out, w.dout);
    } else {
      m' := AuthReplyActs(p, e, m, w.input[..1], w.input[1..], w.dinput, w.out, w.dout);
    }
  }

  lemma SigRelayShows(p: Primitives, e: HostEnv, m: Host, k: Keys, sig: bytes, w: Wires)
    requires e.mode.Qubes? && m.pc.DomSig? && Fresh(e, m) && At(p, e, m, k, 0, 0, 0, []) && !k.trusted
    requires |w.dinput| >= 64 && sig == w.dinput[..64]
    ensures Shows(RunOn(p, e, m, w), Verdict(p, e, k, w.TakeDom(64).Put([0x97] + sig)))
  {
    RunOnWithDom(p, e, m, w, 64);
    var m' := DomSigActs(p, e, m, sig, w.input, w.dinput[64..], w.out, w.dout);
    var w' := w.TakeDom(64).Put([0x97] + sig);
    assert RunOn(p, e, m, w) == RunOn(p, e, m', w');
    VerdictShows(p, e, m', k, w');
  }

  lemma RelayActs(p: Primitives, e: HostEnv, m: Host, w: Wires) returns (m': Host)
    requires m.pc.DomStatus? && Idle(m) && w.dinput != []
    ensures
      var b := w.dinput[0];
      m' == if b == 0x97 then m.(pc := DomSig)
            else if b == 0x90 && m.slot.None? then m.(pc := AuthReply)
            else m.(pc := Exit(Error))
    ensures RunOn(p, e, m, w)
         == RunOn(p, e, m', if m'.pc.AuthReply? then w.TakeDom(1).Put([0x90]) else w.TakeDom(1))
  {
    RunOnWithDom(p, e, m, w, 1);
    m' := DomStatusActs(p, e, m, w.dinput[..1], w.input, w.dinput[1..], w.out, w.dout);
  }

  lemma RelayShows(p: Primitives, e: HostEnv, m: Host, k: Keys, w: Wires)
    requires e.mode.Qubes? && m.pc.DomStatus? && Fresh(e, m) && At(p, e, m, k, 0, 0, 0, []) && !k.trusted
    requires !Qrexec.ParseSlot(e.argv).BadSlot?
    ensures Shows(RunOn(p, e, m, w), Relay(p, e, k, w))
  {
    if w.dinput != [] {
      var m' := RelayActs(p, e, m, w);
      if m'.pc.DomSig? {
        if |w.dinput| >= 65 {
          assert w.dinput[1..][..64] == w.dinput[1..65] && w.dinput[1..][64..] == w.dinput[65..];
          SigRelayShows(p, e, m', k, w.dinput[1..65], w.TakeDom(1));
        }
      } else if m'.pc.AuthReply? {
        VerdictShows(p, e, m', k, w.TakeDom(1).Put([0x90]));
      }
    }
  }

  lemma HandshakeShows(
    p: Primitives, e: HostEnv, m: Host, nonce: bytes, encNonce: bytes, tkeyPub: bytes, w: Wires)
    requires m.pc.ReadTkeyPub? && Fresh(e, m) && !m.trustworthy
    requires m.nonce == nonce && m.encNonce == encNonce && |tkeyPub| == 32
    requires |w.input| >= 32 && tkeyPub == w.input[..32]
    requires e.mode.Qubes? ==> !Qrexec.ParseSlot(e.argv).BadSlot?
    ensures Shows(RunOn(p, e, m, w), Handshake(p, e, nonce, encNonce, tkeyPub, w.Take(32)))
  {
    RunOnWith(p, e, m, w, 32);
    var challenge := nonce + p.pub(e.secret) + tkeyPub + encNonce;
    var shared := p.dh(e.secret, tkeyPub);
    if e.mode.Qubes? {
      var m' := TkeyPubForwarded(p, e, m, tkeyPub, w.input[32..], w.dinput, w.out, w.dout);
      var w' := w.Take(32).PutDom(challenge);
      assert RunOn(p, e, m, w) == RunOn(p, e, m', w');
      RelayShows(p, e, m', Keys(shared, encNonce, false), w');
    } else {
      var m' := TkeyPubActs(p, e, m, tkeyPub, w.input[32..], w.dinput, w.out, w.dout);
      var w' := w.Take(32).Put(StatusMessage(m'));
      assert RunOn(p, e, m, w) == RunOn(p, e, m', w');
      VerdictShows(p, e, m', Keys(shared, encNonce, e.tpm(challenge).Some?), w');
    }
  }

  lemma NonceShows(p: Primitives, e: HostEnv, w: Wires)
    requires InitHost(e).pc.ReadNonce? && |w.input| >= 32
    ensures RunOn(p, e, InitHost(e), w)
         == RunOn(p, e, InitHost(e).(pc := ReadEncNonce, nonce := w.input[..32]), w.Take(32))
  {
    RunOnWith(p, e, InitHost(e), w, 32);
    var m' := NonceActs(p, e, InitHost(e), w.input[..32], w.input[32..], w.dinput, w.out, w.dout);
  }

  lemma EncNonceShows(p: Primitives, e: HostEnv, m: Host, w: Wires)
    requires m.pc.ReadEncNonce? && Idle(m) && |w.input| >= 12
    ensures RunOn(p, e, m, w)
         == RunOn(p, e, m.(pc := ReadTkeyPub, encNonce := w.input[..12]), w.Take(12).Put(p.pub(e.secret)))
  {
    RunOnWith(p, e, m, w, 12);
    var m' := EncNonceActs(p, e, m, w.input[..12], w.input[12..], w.dinput, w.out, w.dout);
  }

  lemma GreetingShows(p: Primitives, e: HostEnv, m: Host, w: Wires)
    requires m == InitHost(e) && m.pc.ReadNonce? && |w.input| >= 44 && w.out == [] && w.dout == []
    ensures Shows(RunOn(p, e, m, w), HostSeen(p, e, w.input, w.dinput))
  {
    var input := w.input;
    NonceShows(p, e, w);
    var m1 := m.(pc := ReadEncNonce, nonce := input[..32]);
    assert input[32..][..12] == input[32..44] && input[32..][12..] == input[44..];
    EncNonceShows(p, e, m1, w.Take(32));
    var m2 := m1.(pc := ReadTkeyPub, encNonce := input[32..44]);
    var w2 := w.Take(44).Put(p.pub(e.secret));
    if |input| >= 76 {
      assert input[44..][..32] == input[44..76] && input[44..][32..] == input[76..];
      HandshakeShows(p, e, m2, input[..32], input[32..44], input[44..76], w2);
    }
  }

  /** Whatever comes in, each of the three programs is seen to do what `HostSeen` says. */
  lemma HostShows(p: Primitives, e: HostEnv, input: bytes, dinput: bytes)
    ensures Shows(Run(p, e, InitHost(e), input, dinput, [], []), HostSeen(p, e, input, dinput))
  {
    var m, w := InitHost(e), Wires(input, dinput, [], []);
    if m.pc.ReadNonce? && |input| >= 32 {
      if |input| >= 44 {
        GreetingShows(p, e, m, w);
      } else {
        NonceShows(p, e, w);
      }
    }
  }
}
