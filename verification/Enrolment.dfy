/** Enrolling a passphrase and unlocking with it in another session; what success of the
    enrolling program means. */
module Enrolment {
  import opened Bytes
  import opened Messages
  import opened StreamCipher
  import opened System
  import opened Framing
  import opened Records
  import opened Invariant
  import opened Liveness
  import Confluence
  import CM = ClientMachine
  import HM = HostMachine

  // ----- Which passphrases are accepted -----

  /** The three programs agree, on passphrases of at least eight bytes: what unlocking reads as
      passphrase plus newline it accepts exactly if enrolling accepts the passphrase; the Qubes
      program also has an upper limit. */
  lemma AcceptanceAgrees(pass: bytes, newline: byte, other: bytes)
    ensures
      var unlocks := HM.Accept(HM.Unlock, HM.Typed(pass + [newline], other));
      && (unlocks == HM.Some(pass) <==> 8 <= |pass|)
      && (unlocks == HM.None <==> |pass| < 8)
      && (HM.Accept(HM.Enrol, HM.Typed(pass, pass)) == HM.Some(pass) <==> 8 <= |pass|)
      && (HM.Accept(HM.Qubes, HM.Typed(pass, pass)) == HM.Some(pass) <==> 8 <= |pass| <= 255)
      && (pass != other ==>
            && HM.Accept(HM.Enrol, HM.Typed(pass, other)) == HM.None
            && HM.Accept(HM.Qubes, HM.Typed(pass, other)) == HM.None)
  {
    assert (pass + [newline])[..|pass|] == pass;
  }

  /** Over every run, each passphrase behind a keyfile that is handed over was typed as it has to
      be: before the newline, or twice alike, with the right length. */
  lemma PassphrasesAreTyped(cfg: Config, schedule: seq<Event>)
    requires cfg.Valid()
    ensures
      forall d <- After(cfg, schedule).h.delivered ::
        && 0 < d.asked <= |cfg.he.answers| && cfg.he.answers[d.asked - 1].Typed?
        && var first, second := cfg.he.answers[d.asked - 1].first, cfg.he.answers[d.asked - 1].second;
           match cfg.he.mode
           case Unlock => 9 <= |first| && d.pass == first[..|first| - 1]
           case Enrol => d.pass == first == second && 8 <= |d.pass|
           case Qubes => d.pass == first == second && 8 <= |d.pass| <= 255
  {
    InvAlways(cfg, schedule);
    var h := After(cfg, schedule).h;
    forall d <- h.delivered
      ensures WasTyped(cfg, d.asked, d.pass) && HM.TypedAs(cfg.he.mode, cfg.he.answers[d.asked - 1], d.pass)
    {
      var i :| 0 <= i < |h.delivered| && h.delivered[i] == d;
      assert RightDelivery(cfg, d);
      HM.AcceptIsExact(cfg.he.mode, cfg.he.answers[d.asked - 1], d.pass);
    }
  }

  /** And conversely, a passphrase typed that way, if it can be hashed, is taken at the prompt: its
      encrypted hash goes out. */
  lemma TypedPassphraseIsTaken(cfg: Config, s: System, pass: bytes)
    requires s.Valid() && HM.CanAct(cfg.he, s.h) && s.h.pc.Ask?
    requires HM.TypedAs(cfg.he.mode, cfg.he.answers[s.h.asked], pass) && !cfg.p.argon2Fails(pass)
    ensures
      var h := Next(cfg, s, HostActs).h;
      && h.pc.HashReply? && h.pass == pass && h.asked == s.h.asked + 1
      && h.pend == Apply(cfg.p, HM.Shared(cfg.p, cfg.he, s.h), s.h.encNonce, s.h.pos, cfg.p.argon2(pass))
  {
    HM.AcceptIsExact(cfg.he.mode, cfg.he.answers[s.h.asked], pass);
  }

  // ----- From a passphrase prompt to the end of the session -----

  /** On try `k` the user is about to answer, or has answered, with `pass`; or it is over. */
  predicate Committed(cfg: Config, s: System, k: nat, asked: nat, pass: bytes) {
    var h, c := s.h, s.c;
    || (h.pc.Ask? && h.tries == k && h.asked == asked && c.pc.Hash? && c.attempts == k)
    || (h.pc.HashReply? && h.tries == k && h.pass == pass && (c.pc.Hash? || c.pc.Result?) && c.attempts == k)
    || (h.pc.ReadKeyfile? && h.tries == k && h.pass == pass && c.pc.Result? && c.attempts == k)
    || h.pc == HM.Exit(HM.Success)
  }

  /** The world in which that answer opens the disk. */
  ghost predicate Opens(cfg: Config, k: nat, asked: nat, pass: bytes) {
    && cfg.he.mode.Unlock?
    && asked < |cfg.he.answers| && cfg.he.answers[asked].Typed?
    && HM.Accept(HM.Unlock, cfg.he.answers[asked]) == HM.Some(pass)
    && !cfg.p.argon2Fails(pass)
    && !cfg.ce.blakeFails(k) && !cfg.he.spawnFails(k)
    && cfg.he.unlock(k, cfg.p.Keyfile(cfg.ce.cdi, pass)) == HM.Exited(0)
  }

  lemma HostCommits(cfg: Config, s: System, k: nat, asked: nat, pass: bytes)
    requires cfg.Valid() && Inv(cfg, s) && Opens(cfg, k, asked, pass)
    requires Committed(cfg, s, k, asked, pass) && HM.CanAct(cfg.he, s.h)
    ensures Committed(cfg, Next(cfg, s, HostActs), k, asked, pass)
  {
    if s.h.pc.ReadKeyfile? {
      KeyfileArrives(cfg, s.c, s.h, s.up.Unread() + s.c.pend, InDown(s));
    } else if s.h.pc.HashReply? {
      HostHearsGood(cfg, s);
    }
  }

  /** A host that waits for the reply to the current hash is not told of a failed derivation. */
  lemma HostHearsGood(cfg: Config, s: System)
    requires s.Valid() && HM.CanAct(cfg.he, s.h) && s.h.pc.HashReply?
    requires Link(cfg, s.c, s.h, InUp(s), InDown(s))
    requires s.h.tries == s.c.attempts && (s.c.pc.Hash? || s.c.pc.Result?)
    ensures s.c.pc.Result? && s.h.got == [GOOD_PASS]
  {
    assert s.h.got + (s.up.Unread() + s.c.pend) == ExpectedUp(cfg, s.c, s.h);
    assert s.c.pc.Result? ==> s.h.got[0] == ExpectedUp(cfg, s.c, s.h)[0];
  }

  lemma ClientCommits(cfg: Config, s: System, k: nat, asked: nat, pass: bytes)
    requires cfg.Valid() && Inv(cfg, s) && Opens(cfg, k, asked, pass)
    requires Committed(cfg, s, k, asked, pass) && CM.CanAct(s.c)
    ensures Committed(cfg, Next(cfg, s, ClientActs), k, asked, pass)
  {
    if s.c.pc.Hash? {
      ClientReadsHash(cfg, s.c, s.h, InUp(s), s.down.Unread() + s.h.pend);
    }
  }

  lemma StepCommits(cfg: Config, s: System, ev: Event, k: nat, asked: nat, pass: bytes)
    requires cfg.Valid() && Inv(cfg, s) && Opens(cfg, k, asked, pass)
    requires Committed(cfg, s, k, asked, pass)
    ensures Committed(cfg, Step(cfg, s, ev), k, asked, pass)
  {
    if Enabled(cfg, s, ev) {
      if ev.HostActs? {
        HostCommits(cfg, s, k, asked, pass);
      } else if ev.ClientActs? {
        ClientCommits(cfg, s, k, asked, pass);
      }
    }
  }

  lemma {:induction false} StaysCommitted(
    cfg: Config, s: System, schedule: seq<Event>, k: nat, asked: nat, pass: bytes)
    requires cfg.Valid() && Opens(cfg, k, asked, pass)
    requires Inv(cfg, s) && Committed(cfg, s, k, asked, pass)
    ensures Committed(cfg, Confluence.From(cfg, s, schedule), k, asked, pass)
    decreases |schedule|
  {
    if schedule != [] {
      StepCommits(cfg, s, schedule[0], k, asked, pass);
      StepInv(cfg, s, schedule[0]);
      StaysCommitted(cfg, Step(cfg, s, schedule[0]), schedule[1..], k, asked, pass);
    }
  }

  /** Once the prompt of try `k` is answered with a passphrase that opens the disk, every way
      of going on until nothing more can happen ends with the disk open and the TKey done. */
  lemma RightPassphraseUnlocks(
    cfg: Config, before: seq<Event>, after: seq<Event>, pass: bytes)
    requires cfg.Valid()
    requires
      var h := After(cfg, before).h;
      h.pc.Ask? && Opens(cfg, h.tries, h.asked, pass)
    requires Stuck(cfg, After(cfg, before + after))
    ensures
      var s := After(cfg, before + after);
      s.h.pc == HM.Exit(HM.Success) && s.c.pc.Done?
  {
    var h := After(cfg, before).h;
    InvAlways(cfg, before);
    StaysCommitted(cfg, After(cfg, before), after, h.tries, h.asked, pass);
    Confluence.FromAfter(cfg, before, after);
    InvAlways(cfg, before + after);
    NoDeadlock(cfg, before + after);
    SuccessIsHeard(cfg, before + after);
  }

  // ----- Two sessions -----

  /** The passphrase was enrolled: luksAddKey succeeded, here or in dom0, with the current
      passphrase and the keyfile. */
  predicate EnrolledWith(cfg: Config, s: System, d: HM.Delivery) {
    var command := HM.AddKey(|cfg.he.current|, cfg.he.current + d.keyfile);
    && s.h.delivered == [d]
    && match cfg.he.mode
       case Enrol => s.h.added == [command] && cfg.he.addKey(command.size, command.piped) == HM.Exited(0)
       case Qubes => s.v.added == [command] && cfg.ve.addKey(command.size, command.piped) == HM.Exited(0)
       case Unlock => false
  }

  /** The same device, and the same library functions; keys, nonces and everything typed may
      differ. */
  predicate SameDevice(a: Config, b: Config) {
    a.ce.cdi == b.ce.cdi
  }

  /** A passphrase enrolled in one session opens the disk in any later session on the same
      device, at whichever of the three prompts it is typed, if that attempt's hash call
      works and cryptsetup accepts exactly the enrolled keyfile. */
  lemma EnrolThenUnlock(
    enrol: Config, first: seq<Event>, d: HM.Delivery,
    unlock: Config, before: seq<Event>, after: seq<Event>, newline: byte, other: bytes)
    requires enrol.Valid() && unlock.Valid() && enrol.p == unlock.p && SameDevice(enrol, unlock)
    requires EnrolledWith(enrol, After(enrol, first), d)
    requires unlock.he.mode.Unlock?
    requires forall k, x :: unlock.he.unlock(k, x) == HM.Exited(0) <==> x == d.keyfile
    requires
      var h := After(unlock, before).h;
      && h.pc.Ask? && h.asked < |unlock.he.answers|
      && unlock.he.answers[h.asked] == HM.Typed(d.pass + [newline], other)
      && !unlock.ce.blakeFails(h.tries) && !unlock.he.spawnFails(h.tries)
    requires Stuck(unlock, After(unlock, before + after))
    ensures
      var s := After(unlock, before + after);
      s.h.pc == HM.Exit(HM.Success) && s.c.pc.Done?
  {
    InvAlways(enrol, first);
    var e := After(enrol, first).h;
    assert RightDelivery(enrol, e.delivered[0]);
    AcceptanceAgrees(d.pass, newline, other);
    assert enrol.p.Keyfile(enrol.ce.cdi, d.pass) == d.keyfile;
    RightPassphraseUnlocks(unlock, before, after, d.pass);
  }

  // ----- What success of the enrolling program means -----

  /** The enrolling program ends well, and the TKey is sent off, exactly if luksAddKey
      succeeded with the current passphrase and the keyfile of a passphrase typed twice alike. */
  lemma EnrolSuccessIsReal(cfg: Config, schedule: seq<Event>)
    requires cfg.Valid() && cfg.he.mode.Enrol?
    ensures
      var s := After(cfg, schedule);
      && (s.c.pc.Done? || s.h.told == [DECRYPTION_SUCCESS] ==> s.h.pc == HM.Exit(HM.Success))
      && (s.h.pc == HM.Exit(HM.Success) <==> exists d :: EnrolledWith(cfg, s, d))
      && (forall d :: EnrolledWith(cfg, s, d) ==>
            && d.keyfile == cfg.p.Keyfile(cfg.ce.cdi, d.pass)
            && 0 < d.asked <= |cfg.he.answers|
            && cfg.he.answers[d.asked - 1] == HM.Typed(d.pass, d.pass) && 8 <= |d.pass|)
  {
    InvAlways(cfg, schedule);
    PassphrasesAreTyped(cfg, schedule);
    var s := After(cfg, schedule);
    if s.h.pc == HM.Exit(HM.Success) {
      assert EnrolledWith(cfg, s, s.h.delivered[0]);
    }
    forall d | EnrolledWith(cfg, s, d) ensures d in s.h.delivered && RightDelivery(cfg, d) {
      assert d == s.h.delivered[0];
    }
  }

  /** It ends with FAILURE exactly if luksAddKey ran and reported a failure, for instance of a wrong
      current passphrase; then the TKey is told 0x98.  Any other bad end tells the TKey nothing. */
  lemma EnrolFailureIsReal(cfg: Config, schedule: seq<Event>)
    requires cfg.Valid() && cfg.he.mode.Enrol?
    ensures
      var h := After(cfg, schedule).h;
      && (h.pc == HM.Exit(HM.Failure) <==>
            |h.added| == 1 && var o := cfg.he.addKey(h.added[0].size, h.added[0].piped); o.Exited? && o.code != 0)
      && (h.pc == HM.Exit(HM.Failure) ==> h.told == [0x98])
      && (h.pc == HM.Exit(HM.Error) ==> h.told == [])
  {
    InvAlways(cfg, schedule);
  }
}
