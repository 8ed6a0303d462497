/** Which sessions the TKey lets through to the passphrases, as a condition on what the parties
    start out with: the key compiled in, the answer of the TPM, the touch, the slot asked for. */
module Admission {
  import opened Bytes
  import opened Messages
  import opened System
  import opened Framing
  import CM = ClientMachine
  import HM = HostMachine
  import Challenge
  import Qrexec

  /** The challenge when nobody interferes. */
  function HonestChallenge(cfg: Config): bytes {
    Challenge.Layout(cfg.ce.nonce, HostPubOf(cfg), TkeyPubOf(cfg), cfg.ce.encNonce)
  }

  /** What the TPM makes of it: the host's own, or the one in dom0. */
  function SignedBy(cfg: Config): HM.Option<bytes> {
    if cfg.he.mode.Qubes? then cfg.ve.tpm(HonestChallenge(cfg)) else cfg.he.tpm(HonestChallenge(cfg))
  }

  /** The Qubes program gives up on a bad slot argument, and on a TPM that does not sign if a slot
      is to be killed. */
  predicate SlotAllows(cfg: Config) {
    cfg.he.mode.Qubes? ==>
      && !Qrexec.ParseSlot(cfg.he.argv).BadSlot?
      && (SignedBy(cfg).None? ==> Qrexec.ParseSlot(cfg.he.argv).NoSlot?)
  }

  /** The signature is good, or there is none or an invalid one and the device is touched. */
  predicate Admitted(cfg: Config) {
    && cfg.ce.pubkeyOk
    && SlotAllows(cfg)
    && match SignedBy(cfg)
       case None => cfg.ce.touch
       case Some(sig) => (
         match cfg.p.checkSig(HonestChallenge(cfg), sig)
         case Malformed => false
         case Invalid => cfg.ce.touch
         case Genuine => true)
  }

  /** Where the handshake has come to on the device. */
  predicate Admitting(cfg: Config, c: CM.Client) {
    match c.pc
    case Start => true
    case HostPub => true
    case Status => cfg.ce.pubkeyOk
    case Sig => cfg.ce.pubkeyOk && SignedBy(cfg).Some?
    case Touch(_) => Admitted(cfg) <==> cfg.ce.touch
    case Aborted(why) => why.Exhausted? || !Admitted(cfg)
    case _ => Admitted(cfg)
  }

  /** What the host waiting for the device's verdict has sent it. */
  predicate Answered(cfg: Config, h: HM.Host) {
    h.pc.AuthReply? ==> h.sig == SignedBy(cfg) && SlotAllows(cfg)
  }

  /** The challenges on both sides are the honest one. */
  lemma SameChallenge(cfg: Config, c: CM.Client, h: HM.Host)
    requires Facts(cfg, c, h)
    ensures c.pc.Status? || c.pc.Sig? ==> CM.ChallengeOf(cfg.p, cfg.ce, c) == HonestChallenge(cfg)
    ensures h.pc.ReadTkeyPub? && h.got == TkeyPubOf(cfg) ==>
              HM.ChallengeOf(cfg.p, cfg.he, h.(tkeyPub := h.got)) == HonestChallenge(cfg)
    ensures h.pc.DomStatus? ==> HM.ChallengeOf(cfg.p, cfg.he, h) == HonestChallenge(cfg)
  {
  }

  lemma ClientStaysAdmitting(cfg: Config, c: CM.Client, h: HM.Host, up: bytes, rest: bytes)
    requires cfg.Valid() && CM.CanAct(c)
    requires Link(cfg, c, h, up, c.got + rest) && Admitting(cfg, c) && Answered(cfg, h)
    ensures Admitting(cfg, CM.Act(cfg.p, cfg.ce, c))
  {
    SameChallenge(cfg, c, h);
    if c.pc.Sig? {
      Aligned(c.got, rest, h.sig.value, []);
    } else if c.pc.Status? {
      Aligned(c.got, rest, HM.StatusMessage(h)[..1], HM.StatusMessage(h)[1..]);
    }
  }
}
