/** When the two enrolling programs succeed: conditions on what the parties start out with, and
    that every session that goes on to its end meets them, whatever its schedule. */
module Enrolling {
  import opened Bytes
  import opened Messages
  import opened System
  import opened Framing
  import opened Admission
  import opened DomFraming
  import opened Records
  import opened Invariant
  import opened Liveness
  import opened QubesEnrolment
  import Confluence
  import CM = ClientMachine
  import HM = HostMachine
  import DM = Dom0Machine
  import Qrexec

  /** The first answer from number `asked` on that is not rejected, if it is a passphrase that
      the host can hash. */
  function FirstPass(cfg: Config, asked: nat): HM.Option<bytes>
    decreases |cfg.he.answers| - asked
  {
    if |cfg.he.answers| <= asked then HM.None
    else
      match HM.AnsweredBy(cfg.p, cfg.he, cfg.he.answers[asked])
      case Rejected => FirstPass(cfg, asked + 1)
      case NoAnswer => HM.None
      case Accepted(pass) => HM.Some(pass)
  }

  /** The passphrase whose keyfile the session comes to have, if it comes to have any. */
  function Offer(cfg: Config): HM.Option<bytes> {
    if Admitted(cfg) && !cfg.ce.blakeFails(1) then FirstPass(cfg, 0) else HM.None
  }

  // ----- The offer foretold -----

  function Foretold(cfg: Config, h: HM.Host): HM.Option<bytes> {
    match h.pc
    case Ask => if cfg.ce.blakeFails(1) then HM.None else FirstPass(cfg, h.asked)
    case HashReply => if cfg.ce.blakeFails(1) then HM.None else HM.Some(h.pass)
    case ReadKeyfile => HM.Some(h.pass)
    case _ => Offer(cfg)
  }

  /** Which outcome of the hash call is known, from where the device is. */
  predicate Hashing(cfg: Config, c: CM.Client, h: HM.Host) {
    && (h.pc.ReadKeyfile? ==> !cfg.ce.blakeFails(1))
    && (h.pc.HashReply? ==>
          match c.pc
          case Result => !cfg.ce.blakeFails(1)
          case Hash => c.attempts == 1 || cfg.ce.blakeFails(1)
          case _ => cfg.ce.blakeFails(1))
  }

  /** What has come of the offer. */
  predicate Offered(cfg: Config, h: HM.Host) {
    if h.delivered != [] then Offer(cfg) == HM.Some(h.delivered[0].pass)
    else if h.pc.Exit? then Offer(cfg).None? || (cfg.he.mode.Enrol? && cfg.he.spawnFails(1))
    else Foretold(cfg, h) == Offer(cfg)
  }

  /** The enrolling program's command. */
  predicate Commands(cfg: Config, h: HM.Host) {
    cfg.he.mode.Enrol? ==>
      && |h.added| == |h.delivered|
      && (h.pc.ReadKeyfile? || h.delivered != [] ==> !cfg.he.spawnFails(1))
  }

  predicate OnCourse(cfg: Config, c: CM.Client, h: HM.Host) {
    && Offered(cfg, h)
    && (Stage(h.pc) <= 4 || h.pc.Ready? ==> h.asked == 0)
    && (!h.pc.Exit? && !h.pc.DomResult? && !h.pc.DomWait? ==> h.delivered == [])
    && Answered(cfg, h)
    && Admitting(cfg, c)
    && Hashing(cfg, c, h)
    && Commands(cfg, h)
  }

  lemma ClientStays(cfg: Config, c: CM.Client, h: HM.Host, up: bytes, rest: bytes)
    requires cfg.Valid() && CM.CanAct(c) && !cfg.he.mode.Unlock?
    requires Link(cfg, c, h, up, c.got + rest) && OnCourse(cfg, c, h)
    ensures OnCourse(cfg, CM.Act(cfg.p, cfg.ce, c), h)
  {
    ClientStaysAdmitting(cfg, c, h, up, rest);
    if c.pc.Hash? {
      ClientReadsHash(cfg, c, h, up, rest);
    }
  }

  lemma HostGreets(cfg: Config, c: CM.Client, h: HM.Host, rest: bytes, down: bytes)
    requires cfg.Valid() && HM.CanAct(cfg.he, h) && !cfg.he.mode.Unlock? && Stage(h.pc) <= 2
    requires Link(cfg, c, h, HM.TkeyRead(h) + rest, down) && OnCourse(cfg, c, h)
    ensures OnCourse(cfg, c, HM.Act(cfg.p, cfg.he, h))
  {
    if h.pc.ReadTkeyPub? {
      Aligned(h.got, rest, TkeyPubOf(cfg), AuthBytes(c));
      SameChallenge(cfg, c, h);
    }
  }

  /** What dom0's TPM has made of the challenge is known to dom0's program. */
  predicate DomSigned(cfg: Config, v: DM.Dom0) {
    v.pc.ReadLength? ==> v.sig == SignedBy(cfg)
  }

  lemma HostRelays(cfg: Config, c: CM.Client, h: HM.Host, v: DM.Dom0, req: bytes, rest: bytes)
    requires cfg.Valid() && HM.CanAct(cfg.he, h) && cfg.he.mode.Qubes? && (h.pc.DomStatus? || h.pc.DomSig?)
    requires Facts(cfg, c, h) && OnCourse(cfg, c, h) && DomSigned(cfg, v)
    requires DomLink(cfg, h, v, req, HM.DomRead(h) + rest)
    ensures OnCourse(cfg, c, HM.Act(cfg.p, cfg.he, h))
  {
    if h.pc.DomStatus? {
      var message := DM.DomStatusMessage(v);
      Aligned(h.got, rest, [message[0]], message[1..]);
    } else {
      Aligned(h.got, rest, v.sig.value, []);
    }
  }

  lemma HostHears(cfg: Config, c: CM.Client, h: HM.Host, rest: bytes, down: bytes)
    requires cfg.Valid() && HM.CanAct(cfg.he, h) && !cfg.he.mode.Unlock? && h.pc.AuthReply?
    requires Link(cfg, c, h, HM.TkeyRead(h) + rest, down) && OnCourse(cfg, c, h)
    ensures OnCourse(cfg, c, HM.Act(cfg.p, cfg.he, h))
  {
    assert h.got[0] == (h.got + rest)[0];
  }

  lemma HostBegins(cfg: Config, c: CM.Client, h: HM.Host, rest: bytes, down: bytes)
    requires cfg.Valid() && HM.CanAct(cfg.he, h) && !cfg.he.mode.Unlock? && h.pc.Ready?
    requires Link(cfg, c, h, HM.TkeyRead(h) + rest, down) && OnCourse(cfg, c, h)
    ensures OnCourse(cfg, c, HM.Act(cfg.p, cfg.he, h))
  {
    assert h.got[0] == (h.got + rest)[0];
  }

  lemma HostPrompts(cfg: Config, c: CM.Client, h: HM.Host, rest: bytes, down: bytes)
    requires cfg.Valid() && HM.CanAct(cfg.he, h) && !cfg.he.mode.Unlock? && h.pc.Ask?
    requires Link(cfg, c, h, HM.TkeyRead(h) + rest, down) && OnCourse(cfg, c, h)
    ensures OnCourse(cfg, c, HM.Act(cfg.p, cfg.he, h))
  {
    PromptEnds(cfg, h);
    Prompted(cfg, c, h, HM.Act(cfg.p, cfg.he, h));
  }

  lemma PromptEnds(cfg: Config, h: HM.Host)
    requires HM.CanAct(cfg.he, h) && h.pc.Ask?
    ensures
      var h' := HM.Act(cfg.p, cfg.he, h);
      && h'.asked == h.asked + 1 && h'.delivered == h.delivered && h'.added == h.added
      && match HM.AnsweredBy(cfg.p, cfg.he, cfg.he.answers[h.asked])
         case Rejected => h'.pc.Ask?
         case NoAnswer => h'.pc == HM.Exit(HM.Error)
         case Accepted(pass) => h'.pc.HashReply? && h'.pass == pass
  {
  }

  lemma Prompted(cfg: Config, c: CM.Client, h: HM.Host, h': HM.Host)
    requires !cfg.he.mode.Unlock? && h.pc.Ask? && h.asked < |cfg.he.answers| && OnCourse(cfg, c, h)
    requires c.pc.Hash? && c.attempts == 1
    requires h'.asked == h.asked + 1 && h'.delivered == h.delivered && h'.added == h.added
    requires match HM.AnsweredBy(cfg.p, cfg.he, cfg.he.answers[h.asked])
             case Rejected => h'.pc.Ask?
             case NoAnswer => h'.pc == HM.Exit(HM.Error)
             case Accepted(pass) => h'.pc.HashReply? && h'.pass == pass
    ensures OnCourse(cfg, c, h')
  {
  }

  lemma HostLearns(cfg: Config, c: CM.Client, h: HM.Host, rest: bytes, down: bytes)
    requires cfg.Valid() && HM.CanAct(cfg.he, h) && !cfg.he.mode.Unlock? && h.pc.HashReply?
    requires Link(cfg, c, h, HM.TkeyRead(h) + rest, down) && OnCourse(cfg, c, h)
    ensures OnCourse(cfg, c, HM.Act(cfg.p, cfg.he, h))
  {
    assert h.got[0] == (h.got + rest)[0];
  }

  lemma HostTakes(cfg: Config, c: CM.Client, h: HM.Host)
    requires HM.CanAct(cfg.he, h) && !cfg.he.mode.Unlock? && (h.pc.ReadKeyfile? || h.pc.DomResult?)
    requires OnCourse(cfg, c, h) && (h.pc.DomResult? ==> cfg.he.mode.Qubes? && h.delivered != [])
    ensures OnCourse(cfg, c, HM.Act(cfg.p, cfg.he, h))
  {
  }

  // ----- dom0 -----

  /** dom0 takes the passphrase for text and starts luksAddKey. */
  predicate DomStarts(cfg: Config) {
    cfg.ve.utf8(Qrexec.Taken(cfg.he.current)) && !cfg.ve.spawnFails
  }

  /** luksAddKey succeeds with what dom0 takes, and so does luksKillSlot, unless dom0 reads the
      do-nothing byte. */
  predicate DomWorks(cfg: Config, keyfile: bytes)
    requires |keyfile| == 32
  {
    var pass, key := Qrexec.Taken(cfg.he.current), Qrexec.TakenKey(cfg.he.current, keyfile);
    && DomStarts(cfg)
    && cfg.ve.addKey(|pass|, pass + key) == HM.Exited(0)
    && (SlotRead(cfg) == DO_NOTHING || cfg.ve.killSlot(key, SlotRead(cfg)))
  }

  /** How far dom0 has come, and why it has ended. */
  predicate DomCourse(cfg: Config, h: HM.Host, v: DM.Dom0) {
    && DomSigned(cfg, v)
    && (v.pc.ReadKey? || v.pc.ReadSlot? || v.pc == DM.Ended(true) ==> DomStarts(cfg))
    && (v.pc == DM.Ended(false) && h.delivered != [] ==> !DomWorks(cfg, SentKeyfile(h)))
    && (h.pc.Exit? && h.pc != HM.Exit(HM.Success) && h.delivered != [] ==> v.pc == DM.Ended(false))
  }

  lemma DomSigns(cfg: Config, c: CM.Client, h: HM.Host, v: DM.Dom0, rest: bytes, rsp: bytes)
    requires cfg.Valid() && cfg.he.mode.Qubes? && DM.DomCanAct(v) && v.pc.ReadChallenge?
    requires Facts(cfg, c, h) && DomLink(cfg, h, v, v.got + rest, rsp) && DomCourse(cfg, h, v)
    ensures DomCourse(cfg, h, DM.DomAct(cfg.ve, v))
  {
    SameChallenge(cfg, c, h);
    if h.pc.DomStatus? {
      Aligned(v.got, rest, HM.ChallengeOf(cfg.p, cfg.he, h), []);
    }
  }

  lemma DomReads(cfg: Config, h: HM.Host, v: DM.Dom0, rest: bytes, rsp: bytes)
    requires cfg.he.mode.Qubes? && DM.DomCanAct(v) && (v.pc.ReadLength? || v.pc.ReadPass?)
    requires DomLink(cfg, h, v, v.got + rest, rsp) && DomCourse(cfg, h, v)
    ensures DomCourse(cfg, h, DM.DomAct(cfg.ve, v))
  {
    if v.pc.ReadPass? {
      Aligned(v.got, rest, Qrexec.Taken(cfg.he.current), KeyTaken(cfg, h) + Left(cfg, h));
    }
  }

  lemma DomAdds(cfg: Config, h: HM.Host, v: DM.Dom0, rest: bytes, rsp: bytes)
    requires cfg.he.mode.Qubes? && DM.DomCanAct(v) && v.pc.ReadKey?
    requires DomLink(cfg, h, v, v.got + rest, rsp) && DomCourse(cfg, h, v)
    ensures DomCourse(cfg, h, DM.DomAct(cfg.ve, v))
  {
    Aligned(v.got, rest, KeyTaken(cfg, h), Left(cfg, h));
  }

  lemma DomKills(cfg: Config, h: HM.Host, v: DM.Dom0, rest: bytes, rsp: bytes)
    requires cfg.he.mode.Qubes? && DM.DomCanAct(v) && v.pc.ReadSlot?
    requires DomLink(cfg, h, v, v.got + rest, rsp) && DomCourse(cfg, h, v)
    ensures DomCourse(cfg, h, DM.DomAct(cfg.ve, v))
  {
    SlotIsRead(cfg, h, v);
    assert v.got[0] == (v.got + rest)[0] == SlotTaken(cfg, h);
  }

  lemma DomStays(cfg: Config, c: CM.Client, h: HM.Host, v: DM.Dom0, rest: bytes, rsp: bytes)
    requires cfg.Valid() && cfg.he.mode.Qubes? && DM.DomCanAct(v)
    requires Facts(cfg, c, h) && DomLink(cfg, h, v, v.got + rest, rsp) && DomCourse(cfg, h, v)
    ensures DomCourse(cfg, h, DM.DomAct(cfg.ve, v))
  {
    match v.pc
    case ReadChallenge => DomSigns(cfg, c, h, v, rest, rsp);
    case ReadLength => DomReads(cfg, h, v, rest, rsp);
    case ReadPass(_) => DomReads(cfg, h, v, rest, rsp);
    case ReadKey => DomAdds(cfg, h, v, rest, rsp);
    case _ => DomKills(cfg, h, v, rest, rsp);
  }

  // ----- Every run -----

  predicate AllOnCourse(cfg: Config, s: System) {
    OnCourse(cfg, s.c, s.h) && (cfg.he.mode.Qubes? ==> DomCourse(cfg, s.h, s.v))
  }

  lemma HostStays(cfg: Config, s: System)
    requires cfg.Valid() && !cfg.he.mode.Unlock? && Inv(cfg, s) && AllOnCourse(cfg, s)
    requires HM.CanAct(cfg.he, s.h)
    ensures OnCourse(cfg, s.c, HM.Act(cfg.p, cfg.he, s.h))
  {
    var h, rest, down := s.h, s.up.Unread() + s.c.pend, InDown(s);
    if h.pc.AuthReply? {
      HostHears(cfg, s.c, h, rest, down);
    } else if h.pc.Ready? {
      HostBegins(cfg, s.c, h, rest, down);
    } else if h.pc.Ask? {
      HostPrompts(cfg, s.c, h, rest, down);
    } else if h.pc.HashReply? {
      HostLearns(cfg, s.c, h, rest, down);
    } else if h.pc.DomStatus? || h.pc.DomSig? {
      HostRelays(cfg, s.c, h, s.v, InRequest(s), s.rsp.Unread() + s.v.pend);
    } else if h.pc.ReadKeyfile? || h.pc.DomResult? {
      HostTakes(cfg, s.c, h);
    } else {
      HostGreets(cfg, s.c, h, rest, down);
    }
  }

  /** The host's action leaves dom0's course alone. */
  lemma HostLeavesDom(cfg: Config, s: System)
    requires cfg.Valid() && cfg.he.mode.Qubes? && Inv(cfg, s) && AllOnCourse(cfg, s) && HM.CanAct(cfg.he, s.h)
    ensures DomCourse(cfg, HM.Act(cfg.p, cfg.he, s.h), s.v)
  {
    var h' := HM.Act(cfg.p, cfg.he, s.h);
    HostHandsOver(cfg, s.h);
    if s.h.pc.DomResult? {
      assert s.h.got[0] == InResponse(s)[0];
    }
  }

  /** dom0's program has ended where the host reads: it has failed over a keyfile. */
  lemma EofMeansFailure(cfg: Config, s: System)
    requires cfg.he.mode.Qubes? && s.Valid() && Enabled(cfg, s, HostSeesEof)
    requires DomLink(cfg, s.h, s.v, InRequest(s), InResponse(s))
    ensures s.h.pc.DomResult? && s.v.pc == DM.Ended(false) && s.h.delivered != []
  {
    assert InResponse(s) == s.h.got;
  }

  lemma HostEndsOnCourse(cfg: Config, c: CM.Client, h: HM.Host, h': HM.Host)
    requires cfg.he.mode.Qubes? && OnCourse(cfg, c, h) && h.delivered != []
    requires h'.pc.Exit? && h'.delivered == h.delivered
    ensures OnCourse(cfg, c, h')
  {
  }

  lemma HostSeesEnd(cfg: Config, s: System, ev: Event)
    requires cfg.he.mode.Qubes? && Inv(cfg, s) && AllOnCourse(cfg, s) && Enabled(cfg, s, ev)
    requires ev.HostSeesEof? || ev.HostSeesExit?
    ensures AllOnCourse(cfg, Next(cfg, s, ev))
  {
    if ev.HostSeesEof? {
      EofMeansFailure(cfg, s);
    }
    HostEndsOnCourse(cfg, s.c, s.h, Next(cfg, s, ev).h);
  }

  lemma DomSeesEnd(cfg: Config, s: System)
    requires cfg.he.mode.Qubes? && Inv(cfg, s) && AllOnCourse(cfg, s) && Enabled(cfg, s, DomSeesEof)
    ensures AllOnCourse(cfg, Next(cfg, s, DomSeesEof))
  {
    assert s.h.pc.Exit? && !s.v.pc.Ended?;
    assert s.h.delivered == [];
  }

  lemma SameOnCourse(cfg: Config, s: System, t: System)
    requires AllOnCourse(cfg, s)
    requires t.c == s.c.(pend := t.c.pend, got := t.c.got) && t.v == s.v.(pend := t.v.pend, got := t.v.got)
    requires t.h == s.h.(pend := t.h.pend, dpend := t.h.dpend, got := t.h.got)
    ensures AllOnCourse(cfg, t)
  {
  }

  lemma StepStays(cfg: Config, s: System, ev: Event)
    requires cfg.Valid() && !cfg.he.mode.Unlock? && Inv(cfg, s) && AllOnCourse(cfg, s) && Enabled(cfg, s, ev)
    ensures AllOnCourse(cfg, Step(cfg, s, ev))
  {
    match ev
    case ClientActs => ClientStays(cfg, s.c, s.h, InUp(s), s.down.Unread() + s.h.pend);
    case HostActs =>
      HostStays(cfg, s);
      if cfg.he.mode.Qubes? {
        HostLeavesDom(cfg, s);
      }
    case DomActs =>
      if cfg.he.mode.Qubes? {
        DomStays(cfg, s.c, s.h, s.v, s.req.Unread() + s.h.dpend, InResponse(s));
      }
    case HostSeesEof => HostSeesEnd(cfg, s, ev);
    case HostSeesExit => HostSeesEnd(cfg, s, ev);
    case DomSeesEof =>
      if cfg.he.mode.Qubes? {
        DomSeesEnd(cfg, s);
      }
    case _ =>
      MoveKeeps(cfg, s, ev);
      SameOnCourse(cfg, s, Next(cfg, s, ev));
  }

  lemma {:induction false} AlwaysOnCourse(cfg: Config, schedule: seq<Event>)
    requires cfg.Valid() && !cfg.he.mode.Unlock?
    ensures AllOnCourse(cfg, After(cfg, schedule))
  {
    if schedule != [] {
      var earlier, ev := schedule[..|schedule| - 1], schedule[|schedule| - 1];
      AlwaysOnCourse(cfg, earlier);
      InvAlways(cfg, earlier);
      if Enabled(cfg, After(cfg, earlier), ev) {
        StepStays(cfg, After(cfg, earlier), ev);
      }
    }
  }

  // ----- When a keyfile comes to be handed over -----

  /** A settled session in which nothing was handed over had nothing to offer, or an enrolling
      program whose cryptsetup did not start. */
  lemma NothingOffered(cfg: Config, s: System)
    requires cfg.Valid() && !cfg.he.mode.Unlock? && Inv(cfg, s) && AllOnCourse(cfg, s)
    requires CM.Halted(s.c) || s.h.pc.Exit? || WaitsForUser(cfg, s.h)
    requires s.h.delivered == []
    ensures Offer(cfg).None? || (cfg.he.mode.Enrol? && cfg.he.spawnFails(1))
  {
    if !s.h.pc.Exit? && !WaitsForUser(cfg, s.h) {
      HaltedEarly(cfg, s.c, s.h, InUp(s), InDown(s));
    }
  }

  /** A device that has stopped while the host still runs had not admitted the host. */
  lemma HaltedEarly(cfg: Config, c: CM.Client, h: HM.Host, up: bytes, down: bytes)
    requires cfg.Valid() && !cfg.he.mode.Unlock? && Link(cfg, c, h, up, down) && Admitting(cfg, c)
    requires CM.Halted(c) && !h.pc.Exit?
    ensures !Admitted(cfg)
  {
    assert c.pc.Aborted?;
  }

  /** Whatever is handed over, in any run, is the keyfile of the offer; and every run that goes
      on to its end hands it over, if there is one, and cryptsetup starts. */
  lemma OfferIsHandedOver(cfg: Config, schedule: seq<Event>)
    requires cfg.Valid() && !cfg.he.mode.Unlock?
    ensures
      var s := After(cfg, schedule);
      && (s.h.delivered != [] ==>
            && |s.h.delivered| == 1 && Offer(cfg) == HM.Some(s.h.delivered[0].pass)
            && s.h.delivered[0].keyfile == cfg.p.Keyfile(cfg.ce.cdi, Offer(cfg).value))
      && (Stuck(cfg, s) && Offer(cfg).Some? ==>
            s.h.delivered != [] || (cfg.he.mode.Enrol? && cfg.he.spawnFails(1)))
  {
    var s := After(cfg, schedule);
    InvAlways(cfg, schedule);
    AlwaysOnCourse(cfg, schedule);
    if s.h.delivered != [] {
      assert RightDelivery(cfg, s.h.delivered[0]);
      OneDelivery(cfg, s);
    }
    if Stuck(cfg, s) && s.h.delivered == [] {
      NoDeadlock(cfg, schedule);
      NothingOffered(cfg, s);
    }
  }

  lemma OneDelivery(cfg: Config, s: System)
    requires cfg.Valid() && !cfg.he.mode.Unlock? && Inv(cfg, s) && AllOnCourse(cfg, s) && s.h.delivered != []
    ensures |s.h.delivered| == 1
  {
  }

  // ----- Exactly when the programs succeed -----

  /** The Qubes session succeeds. */
  ghost predicate QubesEnrols(cfg: Config)
    requires cfg.Valid()
  {
    Offer(cfg).Some? && DomWorks(cfg, cfg.p.Keyfile(cfg.ce.cdi, Offer(cfg).value))
  }

  /** The enrolling session succeeds. */
  predicate EnrolEnrols(cfg: Config) {
    && Offer(cfg).Some? && !cfg.he.spawnFails(1)
    && var keyfile := cfg.p.Keyfile(cfg.ce.cdi, Offer(cfg).value);
       cfg.he.addKey(|cfg.he.current|, cfg.he.current + keyfile) == HM.Exited(0)
  }

  /** In every settled session of the Qubes program, host and TKey have finished well exactly if
      there was a passphrase to offer and dom0 works with what it takes of it. */
  lemma QubesSessionIsExact(cfg: Config, schedule: seq<Event>)
    requires cfg.Valid() && cfg.he.mode.Qubes? && Stuck(cfg, After(cfg, schedule))
    ensures
      var s := After(cfg, schedule);
      (s.h.pc == HM.Exit(HM.Success) <==> QubesEnrols(cfg)) && (s.c.pc.Done? <==> QubesEnrols(cfg))
  {
    var s := After(cfg, schedule);
    OfferIsHandedOver(cfg, schedule);
    InvAlways(cfg, schedule);
    AlwaysOnCourse(cfg, schedule);
    NoDeadlock(cfg, schedule);
    SuccessIsHeard(cfg, schedule);
    if s.h.delivered != [] {
      QubesEnds(cfg, s);
    }
  }

  lemma QubesEnds(cfg: Config, s: System)
    requires cfg.Valid() && cfg.he.mode.Qubes? && Inv(cfg, s) && AllOnCourse(cfg, s)
    requires CM.Halted(s.c) || s.h.pc.Exit? || WaitsForUser(cfg, s.h)
    requires s.h.delivered != []
    ensures s.h.pc == HM.Exit(HM.Success) <==> DomWorks(cfg, SentKeyfile(s.h))
    ensures HasSent(s.h)
  {
    assert s.h.pc.Exit?;
    if s.h.pc == HM.Exit(HM.Success) {
      SlotIsRead(cfg, s.h, s.v);
    }
  }

  /** In every settled session of the enrolling program, host and TKey have finished well exactly
      if there was a passphrase to offer, and luksAddKey starts and succeeds with its keyfile. */
  lemma EnrolSessionIsExact(cfg: Config, schedule: seq<Event>)
    requires cfg.Valid() && cfg.he.mode.Enrol? && Stuck(cfg, After(cfg, schedule))
    ensures
      var s := After(cfg, schedule);
      (s.h.pc == HM.Exit(HM.Success) <==> EnrolEnrols(cfg)) && (s.c.pc.Done? <==> EnrolEnrols(cfg))
  {
    var s := After(cfg, schedule);
    OfferIsHandedOver(cfg, schedule);
    InvAlways(cfg, schedule);
    AlwaysOnCourse(cfg, schedule);
    SuccessIsHeard(cfg, schedule);
    EnrolEnds(cfg, s);
  }

  lemma EnrolEnds(cfg: Config, s: System)
    requires cfg.Valid() && cfg.he.mode.Enrol? && Inv(cfg, s) && AllOnCourse(cfg, s)
    ensures s.c.pc.Done? ==> s.h.pc == HM.Exit(HM.Success)
    ensures s.h.delivered != [] ==> !cfg.he.spawnFails(1)
    ensures s.h.pc == HM.Exit(HM.Success) <==>
              s.h.delivered != [] &&
              cfg.he.addKey(|cfg.he.current|, cfg.he.current + s.h.delivered[0].keyfile) == HM.Exited(0)
  {
  }

  // ----- Exactly when dom0's commands and the success reported are as meant -----

  /** Some run hands over a keyfile exactly if there is an offer. */
  lemma HandOverIsExact(cfg: Config)
    requires cfg.Valid() && cfg.he.mode.Qubes?
    ensures (forall schedule :: NothingHandedOver(cfg, schedule)) <==> Offer(cfg).None?
  {
    if Offer(cfg).Some? {
      var whole := AHandOver(cfg);
      assert !NothingHandedOver(cfg, whole);
    } else {
      forall schedule ensures NothingHandedOver(cfg, schedule) {
        OfferIsHandedOver(cfg, schedule);
      }
    }
  }

  lemma AHandOver(cfg: Config) returns (whole: seq<Event>)
    requires cfg.Valid() && cfg.he.mode.Qubes? && Offer(cfg).Some?
    ensures Stuck(cfg, After(cfg, whole)) && After(cfg, whole).h.delivered != []
  {
    whole := Confluence.EndIsReached(cfg, []);
    assert [] + whole == whole;
    OfferIsHandedOver(cfg, whole);
  }

  /** In every world with this TPM in dom0, success means the enrolment that was meant: exactly
      if the current passphrase has at most 255 bytes, or there is no passphrase to offer. */
  lemma SuccessIsExact(cfg: Config)
    requires cfg.Valid() && cfg.he.mode.Qubes?
    ensures AlwaysReal(cfg) <==> |cfg.he.current| <= 255 || Offer(cfg).None?
  {
    RealByHandOver(cfg);
    HandOverIsExact(cfg);
  }

  /** In every world with this TPM in dom0, luksKillSlot is guarded: exactly if there is no
      passphrase to offer, or its keyfile is safe with the current passphrase. */
  lemma GuardIsExact(cfg: Config)
    requires cfg.Valid() && cfg.he.mode.Qubes?
    ensures AlwaysGuarded(cfg) <==>
              Offer(cfg).None? || SlotSafe(cfg, cfg.p.Keyfile(cfg.ce.cdi, Offer(cfg).value))
  {
    GuardedByHandOver(cfg);
    if AlwaysGuarded(cfg) && Offer(cfg).Some? {
      var whole := AHandOver(cfg);
      OfferIsHandedOver(cfg, whole);
      assert HandsOverSafely(cfg, whole);
    }
    if Offer(cfg).None? || SlotSafe(cfg, cfg.p.Keyfile(cfg.ce.cdi, Offer(cfg).value)) {
      forall schedule ensures HandsOverSafely(cfg, schedule) {
        OfferIsHandedOver(cfg, schedule);
      }
    }
  }
}
