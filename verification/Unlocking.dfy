/** What an unlocking session amounts to, written down as one party would see it who does
    everything in turn; and that the two programs with their streams and shared keystream
    amount to exactly that. */
module Unlocking {
  import opened Bytes
  import opened Messages
  import opened System
  import opened Framing
  import opened Admission
  import opened Records
  import opened Invariant
  import opened Liveness
  import CM = ClientMachine
  import HM = HostMachine

  /** Where the host broke off: at the prompt, or over a keyfile, with or without word of it to
      the TKey. */
  datatype Break = AtPrompt | Unheard | Heard

  /** `k` is the try on which the host broke off, or still waits for the user. */
  datatype Verdict = Opened | GivenUp | Failed(how: Break, k: nat) | Waiting(k: nat) | Stranded

  /** Try `k`, when `asked` answers have been used. */
  function Tries(cfg: Config, k: nat, asked: nat): Verdict
    decreases |cfg.he.answers| - asked, 0
  {
    if |cfg.he.answers| <= asked then Waiting(k)
    else if cfg.he.answers[asked].PromptFailed? then Failed(AtPrompt, k)
    else
      match HM.Accept(HM.Unlock, cfg.he.answers[asked])
      case None => Tries(cfg, k, asked + 1)
      case Some(pass) =>
        if cfg.p.argon2Fails(pass) then Failed(AtPrompt, k)
        else if cfg.ce.blakeFails(k) then Again(cfg, k, asked + 1)
        else Unlocks(cfg, k, asked + 1, pass)
  }

  /** The keyfile of the passphrase is tried. */
  function Unlocks(cfg: Config, k: nat, asked: nat, pass: bytes): Verdict
    decreases |cfg.he.answers| - asked, 2
  {
    if cfg.he.spawnFails(k) then Failed(Unheard, k)
    else
      match cfg.he.unlock(k, cfg.p.Keyfile(cfg.ce.cdi, pass))
      case PipeFailed => Failed(Heard, k)
      case WaitFailed => Failed(Unheard, k)
      case Killed => Again(cfg, k, asked)
      case Exited(code) => if code == 0 then Opened else Again(cfg, k, asked)
  }

  function Again(cfg: Config, k: nat, asked: nat): Verdict
    decreases |cfg.he.answers| - asked, 1
  {
    if k >= 3 then GivenUp else Tries(cfg, k + 1, asked)
  }

  /** The whole session, with no streams, ciphers or schedule in it. */
  function Session(cfg: Config): Verdict {
    if Admitted(cfg) then Tries(cfg, 1, 0) else Stranded
  }

  // ----- The session foretold -----

  /** What the session will amount to, as far as the host has come. */
  function Foretold(cfg: Config, h: HM.Host): Verdict {
    match h.pc
    case Exit(code) => if code.Success? then Opened else if code.Failure? then GivenUp else Session(cfg)
    case Ask => Tries(cfg, h.tries, h.asked)
    case HashReply =>
      if cfg.ce.blakeFails(h.tries) then Again(cfg, h.tries, h.asked) else Unlocks(cfg, h.tries, h.asked, h.pass)
    case ReadKeyfile => Unlocks(cfg, h.tries, h.asked, h.pass)
    case Ready => if h.tries == 1 then Session(cfg) else Tries(cfg, h.tries, h.asked)
    case _ => Session(cfg)
  }

  /** Which hash calls are known to have failed or not, from where the device is. */
  predicate Hashing(cfg: Config, c: CM.Client, h: HM.Host) {
    && (h.pc.ReadKeyfile? ==> !cfg.ce.blakeFails(h.tries))
    && (h.pc.HashReply? ==>
          match c.pc
          case Result => !cfg.ce.blakeFails(h.tries)
          case Hash => h.tries == c.attempts || cfg.ce.blakeFails(h.tries)
          case _ => cfg.ce.blakeFails(h.tries))
  }

  /** Where the device is when the host has told it of a failure on try `k`, or gets to. */
  predicate AfterBadNews(c: CM.Client, k: nat) {
    || ((c.pc.Result? || c.pc.Loop?) && c.attempts == k)
    || (c.pc.Hash? && c.attempts == k + 1)
    || (c.pc == CM.Aborted(CM.Exhausted) && k == 3)
  }

  /** How a host broke off that has exited with an error. */
  predicate BrokeOff(cfg: Config, c: CM.Client, h: HM.Host) {
    var v := Session(cfg);
    && v.Failed? && v.k == h.tries
    && match v.how
       case AtPrompt => h.told == [] && c.pc.Hash? && c.attempts == v.k
       case Unheard => h.told == [] && c.pc.Result? && c.attempts == v.k
       case Heard => h.told == [DECRYPTION_ERROR] && AfterBadNews(c, v.k)
  }

  predicate OnCourse(cfg: Config, c: CM.Client, h: HM.Host) {
    && Foretold(cfg, h) == Session(cfg)
    && (h.pc == HM.Exit(HM.Error) ==> BrokeOff(cfg, c, h))
    && (Stage(h.pc) <= 4 || (h.pc.Ready? && h.tries == 1) ==> h.asked == 0)
    && (h.pc.Exit? ==> h.tries >= 1)
    && Answered(cfg, h)
    && Admitting(cfg, c)
    && Hashing(cfg, c, h)
  }

  lemma ClientHandshakeStays(cfg: Config, c: CM.Client, h: HM.Host, up: bytes, rest: bytes)
    requires cfg.Valid() && CM.CanAct(c) && CM.BeforeLoop(c)
    requires Link(cfg, c, h, up, c.got + rest) && OnCourse(cfg, c, h)
    ensures OnCourse(cfg, CM.Act(cfg.p, cfg.ce, c), h)
  {
    ClientStaysAdmitting(cfg, c, h, up, rest);
  }

  lemma ClientLoopStays(cfg: Config, c: CM.Client, h: HM.Host, up: bytes, rest: bytes)
    requires cfg.Valid() && CM.CanAct(c) && !CM.BeforeLoop(c)
    requires Link(cfg, c, h, up, c.got + rest) && OnCourse(cfg, c, h)
    ensures OnCourse(cfg, CM.Act(cfg.p, cfg.ce, c), h)
  {
    if c.pc.Hash? {
      ClientReadsHash(cfg, c, h, up, rest);
    } else if c.pc.Result? {
      Aligned(c.got, rest, h.told, []);
    }
  }

  lemma ClientStays(cfg: Config, c: CM.Client, h: HM.Host, up: bytes, rest: bytes)
    requires cfg.Valid() && CM.CanAct(c)
    requires Link(cfg, c, h, up, c.got + rest) && OnCourse(cfg, c, h)
    ensures OnCourse(cfg, CM.Act(cfg.p, cfg.ce, c), h)
  {
    if CM.BeforeLoop(c) {
      ClientHandshakeStays(cfg, c, h, up, rest);
    } else {
      ClientLoopStays(cfg, c, h, up, rest);
    }
  }

  lemma HostGreets(cfg: Config, c: CM.Client, h: HM.Host, rest: bytes, down: bytes)
    requires cfg.Valid() && HM.CanAct(cfg.he, h) && cfg.he.mode.Unlock? && Stage(h.pc) <= 2
    requires Link(cfg, c, h, HM.TkeyRead(h) + rest, down) && OnCourse(cfg, c, h)
    ensures OnCourse(cfg, c, HM.Act(cfg.p, cfg.he, h))
  {
    if h.pc.ReadTkeyPub? {
      Aligned(h.got, rest, TkeyPubOf(cfg), AuthBytes(c));
    }
  }

  lemma HostHears(cfg: Config, c: CM.Client, h: HM.Host, rest: bytes, down: bytes)
    requires cfg.Valid() && HM.CanAct(cfg.he, h) && cfg.he.mode.Unlock? && h.pc.AuthReply?
    requires Link(cfg, c, h, HM.TkeyRead(h) + rest, down) && OnCourse(cfg, c, h)
    ensures OnCourse(cfg, c, HM.Act(cfg.p, cfg.he, h))
  {
    assert h.got[0] == (h.got + rest)[0];
  }

  lemma HostBegins(cfg: Config, c: CM.Client, h: HM.Host, rest: bytes, down: bytes)
    requires cfg.Valid() && HM.CanAct(cfg.he, h) && cfg.he.mode.Unlock? && h.pc.Ready?
    requires Link(cfg, c, h, HM.TkeyRead(h) + rest, down) && OnCourse(cfg, c, h)
    ensures OnCourse(cfg, c, HM.Act(cfg.p, cfg.he, h))
  {
    assert h.got[0] == (h.got + rest)[0];
  }

  lemma HostPrompts(cfg: Config, c: CM.Client, h: HM.Host, h': HM.Host, rest: bytes, down: bytes)
    requires HM.CanAct(cfg.he, h) && cfg.he.mode.Unlock? && h.pc.Ask?
    requires Link(cfg, c, h, HM.TkeyRead(h) + rest, down) && OnCourse(cfg, c, h)
    requires HM.Leads(h, h') && HM.PromptAnswered(cfg.p, cfg.he, h, h')
    requires h'.pc == HM.Exit(HM.Error) ==> PromptBroke(cfg, h)
    ensures OnCourse(cfg, c, h')
  {
  }

  /** The prompt failed, or the hash of what was typed. */
  predicate PromptBroke(cfg: Config, h: HM.Host)
    requires h.asked < |cfg.he.answers|
  {
    var answer := cfg.he.answers[h.asked];
    || answer.PromptFailed?
    || (HM.Accept(HM.Unlock, answer).Some? && cfg.p.argon2Fails(HM.Accept(HM.Unlock, answer).value))
  }

  lemma HostBreaks(cfg: Config, h: HM.Host)
    requires HM.CanAct(cfg.he, h) && cfg.he.mode.Unlock? && h.pc.Ask?
    ensures HM.Act(cfg.p, cfg.he, h).pc == HM.Exit(HM.Error) ==> PromptBroke(cfg, h)
  {
  }

  lemma HostLearns(cfg: Config, c: CM.Client, h: HM.Host, rest: bytes, down: bytes)
    requires cfg.Valid() && HM.CanAct(cfg.he, h) && cfg.he.mode.Unlock? && h.pc.HashReply?
    requires Link(cfg, c, h, HM.TkeyRead(h) + rest, down) && OnCourse(cfg, c, h)
    ensures OnCourse(cfg, c, HM.Act(cfg.p, cfg.he, h))
  {
    assert h.got[0] == (h.got + rest)[0];
  }

  lemma HostTries(cfg: Config, c: CM.Client, h: HM.Host, rest: bytes, down: bytes)
    requires cfg.Valid() && HM.CanAct(cfg.he, h) && cfg.he.mode.Unlock? && h.pc.ReadKeyfile?
    requires Link(cfg, c, h, HM.TkeyRead(h) + rest, down) && OnCourse(cfg, c, h)
    ensures OnCourse(cfg, c, HM.Act(cfg.p, cfg.he, h))
  {
    KeyfileArrives(cfg, c, h, rest, down);
    TryFails(cfg, h.tries, h.asked, h.pass);
    if Breaks(cfg, h.tries, h.pass) {
      TryBreaks(cfg, c, h);
    } else {
      TryEnds(cfg, c, h);
    }
  }

  /** cryptsetup does not start, or its pipe or the wait for it fails. */
  predicate Breaks(cfg: Config, k: nat, pass: bytes) {
    var outcome := cfg.he.unlock(k, cfg.p.Keyfile(cfg.ce.cdi, pass));
    cfg.he.spawnFails(k) || outcome.PipeFailed? || outcome.WaitFailed?
  }

  /** Where the two stand when the keyfile is in hand. */
  ghost predicate InHandAt(cfg: Config, c: CM.Client, h: HM.Host) {
    && cfg.he.mode.Unlock? && h.pc.ReadKeyfile? && |h.got| == 32
    && Facts(cfg, c, h) && Agree(c, h) && OnCourse(cfg, c, h)
    && HM.InHand(cfg.p, cfg.he, h).keyfile == cfg.p.Keyfile(cfg.ce.cdi, h.pass)
  }

  lemma TryBreaks(cfg: Config, c: CM.Client, h: HM.Host)
    requires InHandAt(cfg, c, h) && Breaks(cfg, h.tries, h.pass)
    ensures OnCourse(cfg, c, HM.ActKeyfile(cfg.p, cfg.he, h))
  {
    var h' := HM.ActKeyfile(cfg.p, cfg.he, h);
    assert h'.pc == HM.Exit(HM.Error) && h'.tries == h.tries;
    assert Session(cfg) == Unlocks(cfg, h.tries, h.asked, h.pass);
  }

  lemma TryEnds(cfg: Config, c: CM.Client, h: HM.Host)
    requires InHandAt(cfg, c, h) && !Breaks(cfg, h.tries, h.pass)
    ensures OnCourse(cfg, c, HM.ActKeyfile(cfg.p, cfg.he, h))
  {
    var h' := HM.ActKeyfile(cfg.p, cfg.he, h);
    TryFails(cfg, h.tries, h.asked, h.pass);
    assert Foretold(cfg, h') == Unlocks(cfg, h.tries, h.asked, h.pass);
  }

  lemma TryFails(cfg: Config, k: nat, asked: nat, pass: bytes)
    ensures
      var outcome := cfg.he.unlock(k, cfg.p.Keyfile(cfg.ce.cdi, pass));
      !cfg.he.spawnFails(k) && (outcome.Killed? || (outcome.Exited? && outcome.code != 0)) ==>
        Unlocks(cfg, k, asked, pass) == if k >= 3 then GivenUp else Tries(cfg, k + 1, asked)
  {
    assert Again(cfg, k, asked) == if k >= 3 then GivenUp else Tries(cfg, k + 1, asked);
  }

  lemma HostStays(cfg: Config, c: CM.Client, h: HM.Host, rest: bytes, down: bytes)
    requires cfg.Valid() && HM.CanAct(cfg.he, h) && cfg.he.mode.Unlock?
    requires Link(cfg, c, h, HM.TkeyRead(h) + rest, down) && OnCourse(cfg, c, h)
    ensures OnCourse(cfg, c, HM.Act(cfg.p, cfg.he, h))
  {
    if h.pc.AuthReply? {
      HostHears(cfg, c, h, rest, down);
    } else if h.pc.Ready? {
      HostBegins(cfg, c, h, rest, down);
    } else if h.pc.Ask? {
      HM.ActLeads(cfg.p, cfg.he, h);
      HM.ActAnswersPrompt(cfg.p, cfg.he, h);
      HostBreaks(cfg, h);
      HostPrompts(cfg, c, h, HM.Act(cfg.p, cfg.he, h), rest, down);
    } else if h.pc.HashReply? {
      HostLearns(cfg, c, h, rest, down);
    } else if h.pc.ReadKeyfile? {
      HostTries(cfg, c, h, rest, down);
    } else {
      HostGreets(cfg, c, h, rest, down);
    }
  }

  lemma StepStays(cfg: Config, s: System, ev: Event)
    requires cfg.Valid() && cfg.he.mode.Unlock? && Inv(cfg, s) && OnCourse(cfg, s.c, s.h)
    ensures
      var t := Step(cfg, s, ev);
      OnCourse(cfg, t.c, t.h)
  {
    if Enabled(cfg, s, ev) {
      if ev.ClientActs? {
        ClientStays(cfg, s.c, s.h, InUp(s), s.down.Unread() + s.h.pend);
      } else if ev.HostActs? {
        HostStays(cfg, s.c, s.h, s.up.Unread() + s.c.pend, InDown(s));
      } else {
        OthersStay(cfg, s, ev);
      }
    }
  }

  /** Bytes that are moved along change nothing here, nor does dom0's program. */
  lemma OthersStay(cfg: Config, s: System, ev: Event)
    requires cfg.he.mode.Unlock? && Inv(cfg, s) && OnCourse(cfg, s.c, s.h)
    requires Enabled(cfg, s, ev) && !ev.ClientActs? && !ev.HostActs?
    ensures
      var t := Next(cfg, s, ev);
      OnCourse(cfg, t.c, t.h)
  {
    var t := Next(cfg, s, ev);
    if IsMove(ev) {
      MoveKeeps(cfg, s, ev);
    }
    SameOnCourse(cfg, s.c, s.h, t.c, t.h);
  }

  lemma SameOnCourse(cfg: Config, c: CM.Client, h: HM.Host, c': CM.Client, h': HM.Host)
    requires OnCourse(cfg, c, h)
    requires c' == c.(pend := c'.pend, got := c'.got)
    requires h' == h.(pend := h'.pend, dpend := h'.dpend, got := h'.got)
    ensures OnCourse(cfg, c', h')
  {
  }

  lemma {:induction false} AlwaysOnCourse(cfg: Config, schedule: seq<Event>)
    requires cfg.Valid() && cfg.he.mode.Unlock?
    ensures
      var s := After(cfg, schedule);
      OnCourse(cfg, s.c, s.h)
  {
    if schedule != [] {
      var earlier := schedule[..|schedule| - 1];
      AlwaysOnCourse(cfg, earlier);
      InvAlways(cfg, earlier);
      StepStays(cfg, After(cfg, earlier), schedule[|schedule| - 1]);
    }
  }

  // ----- The session fulfilled -----

  /** How both programs have ended, or wait for ever. */
  predicate Ends(cfg: Config, c: CM.Client, h: HM.Host, v: Verdict) {
    match v
    case Opened => h.pc == HM.Exit(HM.Success) && c.pc.Done?
    case GivenUp => h.pc == HM.Exit(HM.Failure) && c.pc == CM.Aborted(CM.Exhausted)
    case Failed(how, k) => (
      && h.pc == HM.Exit(HM.Error) && h.tries == k
      && match how
         case AtPrompt => c.pc.Hash? && c.attempts == k
         case Unheard => c.pc.Result? && c.attempts == k
         case Heard => if k >= 3 then c.pc == CM.Aborted(CM.Exhausted) else c.pc.Hash? && c.attempts == k + 1)
    case Waiting(k) => WaitsForUser(cfg, h) && h.tries == k && c.pc.Hash? && c.attempts == k
    case Stranded => h.pc.Ready? && h.tries == 1 && c.pc.Aborted? && !c.pc.why.Exhausted?
  }

  /** Nobody admitted and nobody left to talk to: the only other way to get stuck. */
  lemma StuckMeansStranded(cfg: Config, s: System)
    requires cfg.Valid() && cfg.he.mode.Unlock? && Inv(cfg, s) && Stuck(cfg, s) && OnCourse(cfg, s.c, s.h)
    requires CM.Halted(s.c) && !s.h.pc.Exit? && !WaitsForUser(cfg, s.h)
    ensures Ends(cfg, s.c, s.h, Stranded) && Session(cfg) == Stranded
  {
    StuckReads(cfg, s);
  }

  lemma ErrorIsFinal(cfg: Config, s: System)
    requires cfg.he.mode.Unlock? && Inv(cfg, s) && Stuck(cfg, s) && OnCourse(cfg, s.c, s.h)
    requires s.h.pc == HM.Exit(HM.Error)
    ensures Ends(cfg, s.c, s.h, Session(cfg))
  {
    StuckReads(cfg, s);
  }

  /** Every session that goes on until nothing more can happen amounts to `Session`. */
  lemma SessionIsAsForetold(cfg: Config, schedule: seq<Event>)
    requires cfg.Valid() && cfg.he.mode.Unlock? && Stuck(cfg, After(cfg, schedule))
    ensures
      var s := After(cfg, schedule);
      Ends(cfg, s.c, s.h, Session(cfg))
  {
    var s := After(cfg, schedule);
    InvAlways(cfg, schedule);
    AlwaysOnCourse(cfg, schedule);
    NoDeadlock(cfg, schedule);
    if s.h.pc == HM.Exit(HM.Error) {
      ErrorIsFinal(cfg, s);
    } else if s.h.pc.Exit? {
      SuccessIsHeard(cfg, schedule);
      FailureIsFinal(cfg, schedule);
    } else if !WaitsForUser(cfg, s.h) {
      StuckMeansStranded(cfg, s);
    }
  }
}
