/** What holds after every schedule of the three programs. */
module Safety {
  import opened Bytes
  import opened Messages
  import opened System
  import opened Framing
  import opened Records
  import opened Invariant
  import CM = ClientMachine
  import HM = HostMachine

  /** While TKey and host both run, the bytes between them are those their two program
      counters determine, and the two cipher positions differ only by what is in flight. */
  lemma FramingHolds(cfg: Config, schedule: seq<Event>)
    requires cfg.Valid()
    ensures
      var s := After(cfg, schedule);
      !CM.Halted(s.c) && !s.h.pc.Exit? ==>
        && Agree(s.c, s.h)
        && InUp(s) == ExpectedUp(cfg, s.c, s.h)
        && InDown(s) == ExpectedDown(cfg, s.c, s.h)
        && PositionsAgree(s.c, s.h)
  {
    InvAlways(cfg, schedule);
  }

  /** The bytes in the client's hands when it acts on a read. */
  predicate ClientReadIsRight(cfg: Config, s: System) {
    match s.c.pc
    case HostPub => s.c.got == HostPubOf(cfg)
    case Status => s.c.got == HM.StatusMessage(s.h)[..1]
    case Sig => s.h.sig == HM.Some(s.c.got)
    case Hash => s.c.got == Encrypted(cfg, s.c.pos, cfg.p.argon2(s.h.pass))
    case Result => s.c.got == s.h.told
    case _ => s.c.got == []
  }

  /** The bytes in the host's hands when it acts on a read from the TKey. */
  predicate HostReadIsRight(cfg: Config, c: CM.Client, h: HM.Host) {
    match h.pc
    case ReadNonce => h.got == cfg.ce.nonce
    case ReadEncNonce => h.got == cfg.ce.encNonce
    case ReadTkeyPub => h.got == TkeyPubOf(cfg)
    case AuthReply => AuthBytes(c) != [] && h.got == [AuthBytes(c)[0]]
    case Ready => h.got == [READY_4_PASS] && h.tries == c.attempts
    case HashReply => h.got == (if c.pc.Result? then [GOOD_PASS] else [BLAKE2_ERROR])
    case ReadKeyfile => h.got == EncryptedKeyfile(cfg, h) && c.pc.Result?
    case _ => true
  }

  lemma FirstBytes(got: bytes, rest: bytes, expected: bytes)
    requires got + rest == expected
    ensures |got| <= |expected| && got == expected[..|got|]
  {
  }

  /** Every fixed-size read of the client takes what the host wrote for it: no status byte is
      ever part of a key, a signature or a hash, nor the other way round. */
  lemma ClientReadsAlign(cfg: Config, schedule: seq<Event>)
    requires cfg.Valid()
    ensures
      var s := After(cfg, schedule);
      CM.CanAct(s.c) ==> ClientReadIsRight(cfg, s)
  {
    var s := After(cfg, schedule);
    InvAlways(cfg, schedule);
    if CM.CanAct(s.c) {
      FirstBytes(s.c.got, s.down.Unread() + s.h.pend, ExpectedDown(cfg, s.c, s.h));
      assert s.c.pc.Sig? ==> s.h.sig.value[..64] == s.h.sig.value;
    }
  }

  /** And every fixed-size read of the host takes what the TKey wrote for it; when it takes a
      Ready4pass, its count of tries is the TKey's count of attempts. */
  lemma HostReadsAlign(cfg: Config, schedule: seq<Event>)
    requires cfg.Valid()
    ensures
      var s := After(cfg, schedule);
      HM.CanAct(cfg.he, s.h) ==> HostReadIsRight(cfg, s.c, s.h)
  {
    var s := After(cfg, schedule);
    InvAlways(cfg, schedule);
    if HM.CanAct(cfg.he, s.h) {
      HostReadAligns(cfg, s.c, s.h, s.up.Unread() + s.c.pend, InDown(s));
    }
  }

  lemma HostReadAligns(cfg: Config, c: CM.Client, h: HM.Host, rest: bytes, down: bytes)
    requires cfg.Valid() && HM.CanAct(cfg.he, h) && Link(cfg, c, h, HM.TkeyRead(h) + rest, down)
    ensures HostReadIsRight(cfg, c, h)
  {
    FirstBytes(HM.TkeyRead(h), rest, ExpectedUp(cfg, c, h));
  }

  /** Every keyfile handed to cryptsetup is the one that a typed passphrase stands for, whatever
      came before: wrong passphrases, killed commands, failed hashes.  A later try has a later
      answer. */
  lemma DeliveryIsExact(cfg: Config, schedule: seq<Event>)
    requires cfg.Valid()
    ensures
      var h := After(cfg, schedule).h;
      && (forall d <- h.delivered :: WasTyped(cfg, d.asked, d.pass))
      && (forall d <- h.delivered :: d.keyfile == cfg.p.blake2s(cfg.ce.cdi, cfg.p.argon2(d.pass)))
      && (forall i, j | 0 <= i < j < |h.delivered| ::
            h.delivered[i].attempt < h.delivered[j].attempt && h.delivered[i].asked < h.delivered[j].asked)
  {
    InvAlways(cfg, schedule);
    var h := After(cfg, schedule).h;
    forall d | d in h.delivered ensures RightDelivery(cfg, d) {
      var i :| 0 <= i < |h.delivered| && h.delivered[i] == d;
    }
  }

  /** No keystream byte encrypts two plaintext bytes, in either direction, and none past 192
      is touched. */
  lemma KeystreamIsNeverReused(cfg: Config, schedule: seq<Event>)
    requires cfg.Valid()
    ensures
      var s := After(cfg, schedule);
      && (forall i, j | 0 <= i < j < |s.c.used| :: Apart(s.c.used[i], s.c.used[j]))
      && (forall i, j | 0 <= i < j < |s.h.used| :: Apart(s.h.used[i], s.h.used[j]))
      && (forall i, j | 0 <= i < |s.c.used| && 0 <= j < |s.h.used| :: Apart(s.c.used[i], s.h.used[j]))
      && (forall u <- s.c.used + s.h.used :: u + 32 <= 192)
      && s.c.pos <= 192 && s.h.pos <= 192
  {
    InvAlways(cfg, schedule);
  }

  /** The TKey finishes only on the word of a host whose cryptsetup accepted the last
      keyfile; and no earlier keyfile had been accepted. */
  lemma DoneMeansOpened(cfg: Config, schedule: seq<Event>)
    requires cfg.Valid() && cfg.he.mode.Unlock?
    ensures
      var s := After(cfg, schedule);
      && (s.c.pc.Done? ==> s.h.pc == HM.Exit(HM.Success))
      && (s.h.pc == HM.Exit(HM.Success) <==> exists d <- s.h.delivered :: HM.Opened(cfg.he, d))
      && (forall i | 0 <= i < |s.h.delivered| - 1 :: !HM.Opened(cfg.he, s.h.delivered[i]))
  {
    InvAlways(cfg, schedule);
    var h := After(cfg, schedule).h;
    if h.pc == HM.Exit(HM.Success) {
      assert h.delivered[|h.delivered| - 1] in h.delivered;
    }
  }

  /** When the handshake of a host that owns the TPM has ended well, the host trusts the
      system exactly if the TKey verified the signature, which is exactly when its light is
      green while it waits for passphrases. */
  lemma TrustAgrees(cfg: Config, schedule: seq<Event>)
    requires cfg.Valid() && !cfg.he.mode.Qubes?
    ensures
      var s := After(cfg, schedule);
      s.h.tries >= 1 ==>
        && (s.h.trustworthy <==> s.c.verified)
        && (s.c.pc.Loop? || s.c.pc.Hash? || s.c.pc.Result? ==>
              (s.h.trustworthy <==> s.c.led == CM.LedGreen))
        && (s.h.trustworthy ==> s.h.sig.Some?)
  {
    InvAlways(cfg, schedule);
  }

  /** The device's own guarantees, in company of the host. */
  lemma DeviceStaysSafe(cfg: Config, schedule: seq<Event>)
    requires cfg.Valid()
    ensures CM.Safe(cfg.ce, After(cfg, schedule).c)
  {
    InvAlways(cfg, schedule);
  }
}
