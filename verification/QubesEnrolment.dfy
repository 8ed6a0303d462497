/** Enrolling through dom0: what its commands are for current passphrases of any length, and
    how far these and the success reported are the ones called for, given what is handed over. */
module QubesEnrolment {
  import opened Bytes
  import opened Messages
  import opened System
  import opened DomFraming
  import opened Records
  import opened Invariant
  import opened Liveness
  import Confluence
  import CM = ClientMachine
  import HM = HostMachine
  import DM = Dom0Machine
  import Qrexec

  // ----- What dom0 runs -----

  /** The slot byte that the arguments call for. */
  function Wanted(cfg: Config): byte {
    match Qrexec.ParseSlot(cfg.he.argv)
    case Slot(n) => n
    case _ => DO_NOTHING
  }

  /** The slot byte that dom0 comes to read: of a passphrase that its length byte cannot carry,
      the byte 32 places after what was taken for the passphrase. */
  function SlotRead(cfg: Config): byte {
    var current := cfg.he.current;
    if |current| <= 255 then Wanted(cfg) else current[|current| % 256 + 32]
  }

  /** Over every run: luksAddKey is run at most once, with what the truncated length makes of
      the current passphrase and the right keyfile; luksKillSlot at most once, after luksAddKey
      succeeded, on the slot byte read. */
  lemma DomCommands(cfg: Config, schedule: seq<Event>)
    requires cfg.Valid() && cfg.he.mode.Qubes?
    ensures
      var s := After(cfg, schedule);
      && (s.h.delivered == [] || (HasSent(s.h) && RightDelivery(cfg, s.h.delivered[0])))
      && (s.v.added == [] ||
          (HasSent(s.h) &&
           var pass, key := Qrexec.Taken(cfg.he.current), Qrexec.TakenKey(cfg.he.current, s.h.delivered[0].keyfile);
           s.v.added == [HM.AddKey(|pass|, pass + key)]))
      && (s.v.killed == [] ||
          (HasSent(s.h) && Added(cfg, s.v) && SlotRead(cfg) != DO_NOTHING &&
           var key := Qrexec.TakenKey(cfg.he.current, s.h.delivered[0].keyfile);
           s.v.killed == [DM.KillSlot(key, SlotRead(cfg))]))
      && (s.v.pc == DM.Ended(true) ==> (s.v.killed == [] <==> SlotRead(cfg) == DO_NOTHING))
  {
    InvAlways(cfg, schedule);
    var s := After(cfg, schedule);
    if s.v.added != [] {
      SlotIsRead(cfg, s.h, s.v);
    }
    if s.h.delivered != [] {
      assert RightDelivery(cfg, s.h.delivered[0]);
    }
  }

  lemma SlotIsRead(cfg: Config, h: HM.Host, v: DM.Dom0)
    requires DomFacts(cfg, h, v) && v.added != []
    ensures SlotTaken(cfg, h) == SlotRead(cfg)
  {
    Qrexec.Truncation(cfg.he.current, SentKeyfile(h));
  }

  // ----- What should have been run -----

  /** luksKillSlot is run only if a slot was asked for, on that slot, which is below 32 and so
      never the do-nothing byte, with the new keyfile, after the TPM has signed and luksAddKey
      has succeeded. */
  predicate KillGuarded(cfg: Config, s: System) {
    s.v.killed != [] ==>
      && |s.v.killed| == 1
      && s.v.killed[0].slot < 32 && s.v.killed[0].slot != DO_NOTHING
      && Qrexec.ParseSlot(cfg.he.argv) == Qrexec.Slot(s.v.killed[0].slot)
      && s.v.sig.Some? && |s.v.added| == 1 && Added(cfg, s.v)
      && HasSent(s.h) && s.v.killed[0].keyfile == s.h.delivered[0].keyfile
  }

  /** Success is reported here or to the TKey. */
  predicate ReportsSuccess(s: System) {
    s.h.pc == HM.Exit(HM.Success) || s.h.told == [DECRYPTION_SUCCESS] || s.c.pc.Done?
  }

  /** luksAddKey has succeeded with exactly the typed current passphrase and the keyfile of the
      new one, and luksKillSlot, if asked for, on exactly the slot asked for. */
  predicate ReallyEnrolled(cfg: Config, s: System) {
    && s.h.pc == HM.Exit(HM.Success)
    && |s.h.delivered| == 1
    && WasTyped(cfg, s.h.delivered[0].asked, s.h.delivered[0].pass)
    && var keyfile := cfg.p.blake2s(cfg.ce.cdi, cfg.p.argon2(s.h.delivered[0].pass));
    && s.v.added == [HM.AddKey(|cfg.he.current|, cfg.he.current + keyfile)]
    && cfg.ve.addKey(|cfg.he.current|, cfg.he.current + keyfile) == HM.Exited(0)
    && (match Qrexec.ParseSlot(cfg.he.argv)
        case NoSlot => s.v.killed == []
        case Slot(n) => s.v.killed == [DM.KillSlot(keyfile, n)] && cfg.ve.killSlot(keyfile, n)
        case BadSlot => false)
  }

  /** What follows from success for passphrases of any length: dom0's program has ended well,
      and every command it ran succeeded.  Whether they are the right commands is a matter of
      the length. */
  lemma QubesSuccessIsReal(cfg: Config, schedule: seq<Event>)
    requires cfg.Valid() && cfg.he.mode.Qubes?
    ensures
      var s := After(cfg, schedule);
      ReportsSuccess(s) ==>
        && s.h.pc == HM.Exit(HM.Success) && s.v.pc == DM.Ended(true) && HasSent(s.h)
        && Added(cfg, s.v) && (s.v.killed == [] || cfg.ve.killSlot(s.v.killed[0].keyfile, s.v.killed[0].slot))
        && (|cfg.he.current| <= 255 ==> ReallyEnrolled(cfg, s))
  {
    InvAlways(cfg, schedule);
    var s := After(cfg, schedule);
    if s.h.pc == HM.Exit(HM.Success) {
      SuccessSeenFromDom(cfg, s, InRequest(s), InResponse(s));
    }
  }

  lemma SuccessSeenFromDom(cfg: Config, s: System, req: bytes, rsp: bytes)
    requires s.h.pc == HM.Exit(HM.Success)
    requires DomLink(cfg, s.h, s.v, req, rsp) && DeliveriesRight(cfg, s.h)
    ensures |cfg.he.current| <= 255 ==> ReallyEnrolled(cfg, s)
  {
    assert RightDelivery(cfg, s.h.delivered[0]);
    Qrexec.Truncation(cfg.he.current, SentKeyfile(s.h));
    SlotIsRead(cfg, s.h, s.v);
  }

  /** Whether the slot byte that dom0 reads, and what it takes for the keyfile, can do no harm:
      the passphrase fits its length byte, or holds the do-nothing byte at the place where the
      slot is read, or there the slot asked for and before it the very keyfile. */
  predicate SlotSafe(cfg: Config, keyfile: bytes)
    requires |keyfile| == 32
  {
    || |cfg.he.current| <= 255
    || SlotRead(cfg) == DO_NOTHING
    || (Qrexec.ParseSlot(cfg.he.argv) == Qrexec.Slot(SlotRead(cfg))
        && Qrexec.TakenKey(cfg.he.current, keyfile) == keyfile)
  }

  /** The guard holds of every run in which that is so. */
  lemma KillSlotIsGuarded(cfg: Config, schedule: seq<Event>)
    requires cfg.Valid() && cfg.he.mode.Qubes?
    ensures
      var s := After(cfg, schedule);
      && (HasSent(s.h) && SlotSafe(cfg, s.h.delivered[0].keyfile) ==> KillGuarded(cfg, s))
      && (s.v.killed != [] ==> HasSent(s.h))
      && (|cfg.he.current| <= 255 ==>
            && KillGuarded(cfg, s)
            && (s.v.killed != [] ==>
                  s.v.added == [HM.AddKey(|cfg.he.current|, cfg.he.current + s.v.killed[0].keyfile)]))
  {
    InvAlways(cfg, schedule);
    var s := After(cfg, schedule);
    if s.v.killed != [] {
      SlotIsRead(cfg, s.h, s.v);
      Qrexec.Truncation(cfg.he.current, SentKeyfile(s.h));
    }
  }

  // ----- Other worlds with the same TPM in dom0 -----

  /** Until the keyfile is handed over, dom0 only signs. */
  lemma {:induction false} SameUntilHandedOver(cfg: Config, ve: DM.Dom0Env, schedule: seq<Event>)
    requires cfg.Valid() && cfg.he.mode.Qubes? && ve.tpm == cfg.ve.tpm
    requires After(cfg, schedule).h.delivered == []
    ensures After(cfg.(ve := ve), schedule) == After(cfg, schedule)
  {
    if schedule != [] {
      var earlier, ev := schedule[..|schedule| - 1], schedule[|schedule| - 1];
      NotYetHandedOver(cfg, earlier, ev);
      SameUntilHandedOver(cfg, ve, earlier);
      SameStep(cfg, ve, After(cfg, earlier), ev);
    }
  }

  lemma NotYetHandedOver(cfg: Config, earlier: seq<Event>, ev: Event)
    requires cfg.Valid() && cfg.he.mode.Qubes?
    requires Step(cfg, After(cfg, earlier), ev).h.delivered == []
    ensures Inv(cfg, After(cfg, earlier)) && After(cfg, earlier).h.delivered == []
  {
    InvAlways(cfg, earlier);
    if After(cfg, earlier).h.delivered != [] {
      DeliveredStays(cfg, After(cfg, earlier), ev);
    }
  }

  lemma SameStep(cfg: Config, ve: DM.Dom0Env, s: System, ev: Event)
    requires cfg.he.mode.Qubes? && ve.tpm == cfg.ve.tpm && Inv(cfg, s) && s.h.delivered == []
    ensures Step(cfg.(ve := ve), s, ev) == Step(cfg, s, ev)
  {
  }

  lemma DeliveredStays(cfg: Config, s: System, ev: Event)
    requires cfg.he.mode.Qubes? && Inv(cfg, s) && s.h.delivered != []
    ensures Step(cfg, s, ev).h.delivered == s.h.delivered
  {
    if Enabled(cfg, s, ev) && ev.HostActs? {
      HM.ActKeeps(cfg.p, cfg.he, s.h);
    }
  }

  lemma HandsOver(cfg: Config, s: System, ev: Event)
    requires cfg.he.mode.Qubes? && Inv(cfg, s) && s.h.delivered == [] && Step(cfg, s, ev).h.delivered != []
    ensures Step(cfg, s, ev).h.pc.DomResult? && Step(cfg, s, ev).v.pc.ReadLength?
  {
    if Enabled(cfg, s, ev) && ev.HostActs? {
      HostHandsOver(cfg, s.h);
    }
  }

  lemma HostHandsOver(cfg: Config, h: HM.Host)
    requires cfg.he.mode.Qubes? && HM.CanAct(cfg.he, h)
    ensures
      var h' := HM.Act(cfg.p, cfg.he, h);
      h'.delivered == h.delivered || (h.pc.ReadKeyfile? && h'.pc.DomResult?)
  {
    HM.ActKeeps(cfg.p, cfg.he, h);
  }

  /** A keyfile that is handed over in one world is handed over in the other. */
  lemma {:induction false} HandedOverThere(cfg: Config, ve: DM.Dom0Env, schedule: seq<Event>)
    returns (there: seq<Event>)
    requires cfg.Valid() && cfg.he.mode.Qubes? && ve.tpm == cfg.ve.tpm
    requires After(cfg, schedule).h.delivered != []
    ensures After(cfg.(ve := ve), there).h.delivered == After(cfg, schedule).h.delivered
    ensures After(cfg.(ve := ve), there).h.pc.DomResult? && After(cfg.(ve := ve), there).v.pc.ReadLength?
  {
    assert schedule != [];
    var earlier, ev := schedule[..|schedule| - 1], schedule[|schedule| - 1];
    var s := After(cfg, earlier);
    InvAlways(cfg, earlier);
    if s.h.delivered == [] {
      SameUntilHandedOver(cfg, ve, earlier);
      SameStep(cfg, ve, s, ev);
      HandsOver(cfg, s, ev);
      there := schedule;
    } else {
      DeliveredStays(cfg, s, ev);
      there := HandedOverThere(cfg, ve, earlier);
    }
  }

  /** A dom0 in which every command succeeds. */
  function Generous(ve: DM.Dom0Env): DM.Dom0Env {
    DM.Dom0Env(ve.tpm, _ => true, false, (size, piped) => HM.Exited(0), (keyfile, slot) => true)
  }

  predicate Thrives(s: System) {
    && (s.h.pc.DomResult? || s.h.pc.DomWait? || s.h.pc == HM.Exit(HM.Success))
    && s.h.delivered != []
    && (s.v.pc.Ended? ==> s.v.pc.ok)
  }

  lemma HostThrives(cfg: Config, s: System)
    requires cfg.Valid() && cfg.he.mode.Qubes? && Inv(cfg, s) && Thrives(s) && Enabled(cfg, s, HostActs)
    ensures Thrives(Next(cfg, s, HostActs))
  {
    HM.ActKeeps(cfg.p, cfg.he, s.h);
    assert s.h.got[0] == InResponse(s)[0];
  }

  lemma DomThrives(cfg: Config, s: System)
    requires cfg.ve == Generous(cfg.ve) && Inv(cfg, s) && Thrives(s) && Enabled(cfg, s, DomActs)
    requires cfg.he.mode.Qubes?
    ensures Thrives(Next(cfg, s, DomActs))
  {
  }

  lemma EndsThrive(cfg: Config, s: System, ev: Event)
    requires cfg.he.mode.Qubes? && Inv(cfg, s) && Thrives(s) && Enabled(cfg, s, ev)
    requires ev.HostSeesEof? || ev.HostSeesExit? || ev.DomSeesEof?
    ensures Thrives(Next(cfg, s, ev))
  {
  }

  lemma ThrivesOn(cfg: Config, s: System, ev: Event)
    requires cfg.Valid() && cfg.he.mode.Qubes? && cfg.ve == Generous(cfg.ve) && Inv(cfg, s) && Thrives(s)
    ensures Thrives(Step(cfg, s, ev)) && Step(cfg, s, ev).h.delivered == s.h.delivered
  {
    DeliveredStays(cfg, s, ev);
    if Enabled(cfg, s, ev) {
      match ev
      case HostActs => HostThrives(cfg, s);
      case DomActs => DomThrives(cfg, s);
      case HostSeesEof => EndsThrive(cfg, s, ev);
      case HostSeesExit => EndsThrive(cfg, s, ev);
      case DomSeesEof => EndsThrive(cfg, s, ev);
      case _ =>
    }
  }

  lemma {:induction false} ThrivesFrom(cfg: Config, s: System, schedule: seq<Event>)
    requires cfg.Valid() && cfg.he.mode.Qubes? && cfg.ve == Generous(cfg.ve)
    requires Inv(cfg, s) && Thrives(s)
    ensures
      var t := Confluence.From(cfg, s, schedule);
      Inv(cfg, t) && Thrives(t) && t.h.delivered == s.h.delivered
    decreases |schedule|
  {
    if schedule != [] {
      ThrivesOn(cfg, s, schedule[0]);
      StepInv(cfg, s, schedule[0]);
      ThrivesFrom(cfg, Step(cfg, s, schedule[0]), schedule[1..]);
    }
  }

  /** There the session goes on to its good end. */
  lemma GoodEnd(cfg: Config, schedule: seq<Event>) returns (whole: seq<Event>)
    requires cfg.Valid() && cfg.he.mode.Qubes? && cfg.ve == Generous(cfg.ve)
    requires Thrives(After(cfg, schedule))
    ensures After(cfg, whole).h.pc == HM.Exit(HM.Success)
    ensures After(cfg, whole).v.pc == DM.Ended(true)
    ensures After(cfg, whole).h.delivered == After(cfg, schedule).h.delivered
  {
    var rest := Confluence.EndIsReached(cfg, schedule);
    whole := schedule + rest;
    InvAlways(cfg, schedule);
    ThrivesFrom(cfg, After(cfg, schedule), rest);
    Confluence.FromAfter(cfg, schedule, rest);
    NoDeadlock(cfg, whole);
    ThrivingIsOver(cfg, After(cfg, whole));
  }

  lemma ThrivingIsOver(cfg: Config, s: System)
    requires cfg.he.mode.Qubes? && Inv(cfg, s) && Thrives(s)
    requires CM.Halted(s.c) || s.h.pc.Exit?
    ensures s.h.pc == HM.Exit(HM.Success) && s.v.pc == DM.Ended(true)
  {
  }

  // ----- Exactly when -----

  /** In every world with this TPM in dom0, after every schedule, the guard holds. */
  ghost predicate AlwaysGuarded(cfg: Config) {
    forall ve: DM.Dom0Env, schedule: seq<Event> :: ve.Valid() && ve.tpm == cfg.ve.tpm ==> GuardedIn(cfg, ve, schedule)
  }

  predicate GuardedIn(cfg: Config, ve: DM.Dom0Env, schedule: seq<Event>) {
    KillGuarded(cfg.(ve := ve), After(cfg.(ve := ve), schedule))
  }

  /** Success is never reported unless the enrolment is real. */
  ghost predicate AlwaysReal(cfg: Config) {
    forall ve: DM.Dom0Env, schedule: seq<Event> :: ve.Valid() && ve.tpm == cfg.ve.tpm ==> RealIn(cfg, ve, schedule)
  }

  predicate RealIn(cfg: Config, ve: DM.Dom0Env, schedule: seq<Event>) {
    var s := After(cfg.(ve := ve), schedule);
    ReportsSuccess(s) ==> ReallyEnrolled(cfg.(ve := ve), s)
  }

  /** A session with a keyfile to hand over ends well in some world with this TPM. */
  lemma GoodWorld(cfg: Config, schedule: seq<Event>) returns (whole: seq<Event>)
    requires cfg.Valid() && cfg.he.mode.Qubes? && After(cfg, schedule).h.delivered != []
    ensures Generous(cfg.ve).Valid() && Generous(cfg.ve).tpm == cfg.ve.tpm
    ensures
      var there := cfg.(ve := Generous(cfg.ve));
      var s := After(there, whole);
      && there.Valid()
      && s.h.pc == HM.Exit(HM.Success) && s.v.pc == DM.Ended(true)
      && s.h.delivered == After(cfg, schedule).h.delivered
  {
    var there := cfg.(ve := Generous(cfg.ve));
    assert there.ve == Generous(there.ve);
    var handed := HandedOverThere(cfg, there.ve, schedule);
    whole := GoodEnd(there, handed);
  }

  /** The guard of luksKillSlot holds in every world exactly if every keyfile that is handed
      over is safe with this current passphrase. */
  lemma GuardedByHandOver(cfg: Config)
    requires cfg.Valid() && cfg.he.mode.Qubes?
    ensures AlwaysGuarded(cfg) <==> forall schedule :: HandsOverSafely(cfg, schedule)
  {
    if AlwaysGuarded(cfg) {
      forall schedule ensures HandsOverSafely(cfg, schedule) {
        if After(cfg, schedule).h.delivered != [] {
          GuardedIsSafe(cfg, schedule);
        }
      }
    }
    if forall schedule :: HandsOverSafely(cfg, schedule) {
      forall ve: DM.Dom0Env, schedule: seq<Event> | ve.Valid() && ve.tpm == cfg.ve.tpm
        ensures GuardedIn(cfg, ve, schedule)
      {
        SafeIsGuarded(cfg, ve, schedule);
      }
    }
  }

  predicate HandsOverSafely(cfg: Config, schedule: seq<Event>) {
    var h := After(cfg, schedule).h;
    h.delivered != [] ==> HasSent(h) && SlotSafe(cfg, h.delivered[0].keyfile)
  }

  lemma GuardedIsSafe(cfg: Config, schedule: seq<Event>)
    requires cfg.Valid() && cfg.he.mode.Qubes? && AlwaysGuarded(cfg) && After(cfg, schedule).h.delivered != []
    ensures HandsOverSafely(cfg, schedule)
  {
    var whole := GoodWorld(cfg, schedule);
    var there := cfg.(ve := Generous(cfg.ve));
    assert GuardedIn(cfg, there.ve, whole);
    DomCommands(there, whole);
    DomCommands(cfg, schedule);
  }

  lemma SafeIsGuarded(cfg: Config, ve: DM.Dom0Env, schedule: seq<Event>)
    requires cfg.Valid() && cfg.he.mode.Qubes? && ve.Valid() && ve.tpm == cfg.ve.tpm
    requires forall there :: HandsOverSafely(cfg, there)
    ensures GuardedIn(cfg, ve, schedule)
  {
    var other := cfg.(ve := ve);
    KillSlotIsGuarded(other, schedule);
    if After(other, schedule).v.killed != [] {
      var here := HandedOverThere(other, cfg.ve, schedule);
      assert other.(ve := cfg.ve) == cfg;
      assert HandsOverSafely(cfg, here);
    }
  }

  /** Success implies a real enrolment in every world exactly if the current passphrase has at
      most 255 bytes, or no session gets so far as to hand over a keyfile. */
  lemma RealByHandOver(cfg: Config)
    requires cfg.Valid() && cfg.he.mode.Qubes?
    ensures AlwaysReal(cfg) <==>
              |cfg.he.current| <= 255 || forall schedule :: NothingHandedOver(cfg, schedule)
  {
    if AlwaysReal(cfg) && |cfg.he.current| > 255 {
      forall schedule ensures NothingHandedOver(cfg, schedule) {
        if !NothingHandedOver(cfg, schedule) {
          FalseSuccess(cfg, schedule);
        }
      }
    }
    if |cfg.he.current| <= 255 || forall schedule :: NothingHandedOver(cfg, schedule) {
      forall ve: DM.Dom0Env, schedule: seq<Event> | ve.Valid() && ve.tpm == cfg.ve.tpm
        ensures RealIn(cfg, ve, schedule)
      {
        TrueSuccess(cfg, ve, schedule);
      }
    }
  }

  predicate NothingHandedOver(cfg: Config, schedule: seq<Event>) {
    After(cfg, schedule).h.delivered == []
  }

  /** With a longer passphrase, success is reported in some world though luksAddKey was given
      less than the passphrase. */
  lemma FalseSuccess(cfg: Config, schedule: seq<Event>)
    requires cfg.Valid() && cfg.he.mode.Qubes? && |cfg.he.current| > 255
    requires !NothingHandedOver(cfg, schedule)
    ensures !AlwaysReal(cfg)
  {
    var whole := GoodWorld(cfg, schedule);
    var there := cfg.(ve := Generous(cfg.ve));
    DomCommands(there, whole);
    QubesSuccessIsReal(there, whole);
    assert !RealIn(cfg, there.ve, whole);
  }

  lemma TrueSuccess(cfg: Config, ve: DM.Dom0Env, schedule: seq<Event>)
    requires cfg.Valid() && cfg.he.mode.Qubes? && ve.Valid() && ve.tpm == cfg.ve.tpm
    requires |cfg.he.current| <= 255 || forall there :: NothingHandedOver(cfg, there)
    ensures RealIn(cfg, ve, schedule)
  {
    var other := cfg.(ve := ve);
    QubesSuccessIsReal(other, schedule);
    if |cfg.he.current| > 255 && ReportsSuccess(After(other, schedule)) {
      var here := HandedOverThere(other, cfg.ve, schedule);
      assert other.(ve := cfg.ve) == cfg;
      if NothingHandedOver(cfg, here) {
        assert false;
      }
    }
  }
}
