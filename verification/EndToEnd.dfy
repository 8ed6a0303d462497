/** From the first prompt of an enrolment to the opened disk of a later session, as conditions on
    what the parties start out with; and one whole session with a long current passphrase. */
module EndToEnd {
  import opened Bytes
  import opened Messages
  import opened Primitives
  import opened System
  import opened Admission
  import opened Enrolment
  import opened Enrolling
  import opened QubesEnrolment
  import opened Records
  import opened Unlocking
  import Confluence
  import CM = ClientMachine
  import DM = Dom0Machine
  import HM = HostMachine
  import Qrexec

  // ----- Enrolled, then unlocked -----

  /** Both parties do their part, so that the passphrase offered is enrolled. */
  ghost predicate Enrols(cfg: Config)
    requires cfg.Valid()
  {
    match cfg.he.mode
    case Enrol => EnrolEnrols(cfg)
    case Qubes => QubesEnrols(cfg) && |cfg.he.current| <= 255
    case Unlock => false
  }

  /** The first answer that is not rejected is the passphrase, and on the first try the calls
      work and cryptsetup accepts just this keyfile. */
  predicate TypesIt(cfg: Config, pass: bytes, keyfile: bytes) {
    && cfg.he.mode.Unlock? && Admitted(cfg)
    && FirstPass(cfg, 0) == HM.Some(pass)
    && !cfg.ce.blakeFails(1) && !cfg.he.spawnFails(1)
    && cfg.he.unlock(1, keyfile) == HM.Exited(0)
  }

  /** An enrolment that is meant to succeed does, and leaves the disk with a keyfile that later
      opens it in every session in which the same passphrase is typed on the same device. */
  lemma EnrolledPassphraseOpens(enrol: Config, a: seq<Event>, unlock: Config, b: seq<Event>)
    requires enrol.Valid() && unlock.Valid() && enrol.p == unlock.p && SameDevice(enrol, unlock)
    requires Enrols(enrol) && Stuck(enrol, After(enrol, a)) && Stuck(unlock, After(unlock, b))
    ensures Offer(enrol).Some?
    ensures
      var pass := Offer(enrol).value;
      var keyfile := enrol.p.Keyfile(enrol.ce.cdi, pass);
      && After(enrol, a).h.pc == HM.Exit(HM.Success) && After(enrol, a).c.pc.Done?
      && (exists d :: EnrolledWith(enrol, After(enrol, a), d) && d.pass == pass && d.keyfile == keyfile)
      && (TypesIt(unlock, pass, keyfile) ==>
            After(unlock, b).h.pc == HM.Exit(HM.Success) && After(unlock, b).c.pc.Done?)
  {
    EnrolmentSucceeds(enrol, a);
    var pass := Offer(enrol).value;
    if TypesIt(unlock, pass, enrol.p.Keyfile(enrol.ce.cdi, pass)) {
      FirstPassOpens(unlock, 0, pass);
      SessionIsAsForetold(unlock, b);
    }
  }

  lemma EnrolmentSucceeds(enrol: Config, a: seq<Event>)
    requires enrol.Valid() && Enrols(enrol) && Stuck(enrol, After(enrol, a))
    ensures
      var s := After(enrol, a);
      && s.h.pc == HM.Exit(HM.Success) && s.c.pc.Done? && |s.h.delivered| == 1
      && EnrolledWith(enrol, s, s.h.delivered[0])
      && Offer(enrol) == HM.Some(s.h.delivered[0].pass)
      && s.h.delivered[0].keyfile == enrol.p.Keyfile(enrol.ce.cdi, s.h.delivered[0].pass)
  {
    OfferIsHandedOver(enrol, a);
    if enrol.he.mode.Enrol? {
      EnrolSessionIsExact(enrol, a);
      EnrolSuccessIsReal(enrol, a);
    } else {
      QubesSessionIsExact(enrol, a);
      QubesSuccessIsReal(enrol, a);
    }
  }

  /** Rejected answers before the passphrase make no difference. */
  lemma {:induction false} FirstPassOpens(cfg: Config, asked: nat, pass: bytes)
    requires cfg.he.mode.Unlock? && FirstPass(cfg, asked) == HM.Some(pass)
    requires !cfg.ce.blakeFails(1) && !cfg.he.spawnFails(1)
    requires cfg.he.unlock(1, cfg.p.Keyfile(cfg.ce.cdi, pass)) == HM.Exited(0)
    ensures Tries(cfg, 1, asked) == Opened
    decreases |cfg.he.answers| - asked
  {
    if HM.AnsweredBy(cfg.p, cfg.he, cfg.he.answers[asked]).Rejected? {
      FirstPassOpens(cfg, asked + 1, pass);
    } else {
      assert Unlocks(cfg, 1, asked + 1, pass) == Opened;
    }
  }

  // ----- A whole session with a current passphrase of 300 bytes -----

  function Copies(n: nat, b: byte): (r: bytes)
    ensures |r| == n
  {
    seq(n, _ => b)
  }

  /** A library of constants, a TPM that signs, and commands that succeed. */
  function LongSession(): Config {
    Config(
      Primitives(_ => Zeros(32), (_, _) => Zeros(32), (_, _, _) => 0, _ => false, _ => Zeros(32),
                 (_, _) => Zeros(32), (_, _) => Genuine),
      CM.ClientEnv(Zeros(32), Zeros(12), [], [], true, false, _ => false),
      HM.HostEnv(HM.Qubes, [], ["qubes_enroll"], _ => HM.None,
                 [HM.Typed(Copies(8, 0x42), Copies(8, 0x42))], Copies(300, 0x41), _ => false,
                 (_, _) => HM.Exited(0), (_, _) => HM.Exited(0)),
      DM.Dom0Env(_ => HM.Some(Zeros(64)), _ => true, false, (_, _) => HM.Exited(0), (_, _) => true))
  }

  lemma LongSessionOffers()
    ensures LongSession().Valid() && Offer(LongSession()) == HM.Some(Copies(8, 0x42))
    ensures QubesEnrols(LongSession())
  {
    var cfg := LongSession();
    assert Qrexec.ParseSlot(cfg.he.argv) == Qrexec.NoSlot;
    assert Admitted(cfg);
    assert HM.AnsweredBy(cfg.p, cfg.he, cfg.he.answers[0]) == HM.Accepted(Copies(8, 0x42));
  }

  /** Though no slot was to be killed, the session succeeds with a slot killed that a byte of the
      passphrase names, and with a key added that the typed one is not. */
  lemma ALongSession() returns (schedule: seq<Event>)
    ensures
      var s := After(LongSession(), schedule);
      && s.h.pc == HM.Exit(HM.Success) && s.c.pc.Done?
      && s.v.added == [HM.AddKey(44, Copies(76, 0x41))]
      && s.v.killed == [DM.KillSlot(Copies(32, 0x41), 0x41)]
      && !KillGuarded(LongSession(), s) && !ReallyEnrolled(LongSession(), s)
  {
    var cfg := LongSession();
    LongSessionOffers();
    schedule := AHandOver(cfg);
    QubesSessionIsExact(cfg, schedule);
    QubesSuccessIsReal(cfg, schedule);
    DomCommands(cfg, schedule);
    var s := After(cfg, schedule);
    LongPieces(s.h.delivered[0].keyfile);
  }

  lemma LongPieces(keyfile: bytes)
    requires |keyfile| == 32
    ensures Qrexec.Taken(Copies(300, 0x41)) == Copies(44, 0x41)
    ensures Qrexec.TakenKey(Copies(300, 0x41), keyfile) == Copies(32, 0x41)
    ensures Copies(44, 0x41) + Copies(32, 0x41) == Copies(76, 0x41)
  {
    Qrexec.Truncation(Copies(300, 0x41), keyfile);
  }
}
