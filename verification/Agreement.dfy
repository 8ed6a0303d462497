/** Sessions over a wire that may change, drop, invent or replay any byte.

    Any number of TKey and host sessions take steps in any order, and every read of every one
    of them is given arbitrary bytes.  The one thing that is taken for granted is the TPM's
    signature: it is found genuine only on a challenge that some host handed to the TPM. */
module Agreement {
  import opened Bytes
  import opened Primitives
  import CM = ClientMachine
  import HM = HostMachine
  import Challenge

  datatype Parties = Parties(p: Primitives, ce: seq<CM.ClientEnv>, he: seq<HM.HostEnv>) {
    ghost predicate Valid() {
      p.Valid() && forall i | 0 <= i < |ce| :: ce[i].Valid()
    }
  }

  /** The sessions, and the challenges signed so far. */
  datatype World = World(c: seq<CM.Client>, h: seq<HM.Host>, signed: set<bytes>)

  datatype Event = ClientGets(i: nat, got: bytes) | HostGets(i: nat, got: bytes)

  function Begin(cfg: Parties): World {
    World(seq(|cfg.ce|, _ => CM.INIT_CLIENT),
          seq(|cfg.he|, i requires 0 <= i < |cfg.he| => HM.InitHost(cfg.he[i])),
          {})
  }

  function ClientHolding(c: CM.Client, got: bytes): CM.Client {
    c.(pend := [], got := got)
  }

  function HostHolding(h: HM.Host, got: bytes): HM.Host {
    h.(pend := [], dpend := [], got := got)
  }

  /** The signature check of a client that acts on these bytes. */
  predicate FindsGenuine(cfg: Parties, i: nat, c: CM.Client)
    requires i < |cfg.ce|
  {
    c.pc.Sig? && cfg.p.checkSig(CM.ChallengeOf(cfg.p, cfg.ce[i], c), c.got) == Genuine
  }

  predicate Possible(cfg: Parties, w: World, ev: Event) {
    && |w.c| == |cfg.ce| && |w.h| == |cfg.he|
    && match ev
       case ClientGets(i, got) =>
         && i < |w.c|
         && CM.CanAct(ClientHolding(w.c[i], got))
         && (FindsGenuine(cfg, i, ClientHolding(w.c[i], got)) ==>
               CM.ChallengeOf(cfg.p, cfg.ce[i], w.c[i]) in w.signed)
       case HostGets(i, got) =>
         i < |w.h| && HM.CanAct(cfg.he[i], HostHolding(w.h[i], got))
  }

  /** What a host that has read the TKey's key has its TPM sign, itself or through dom0. */
  function NewlySigned(cfg: Parties, i: nat, h: HM.Host, h': HM.Host): set<bytes>
    requires i < |cfg.he|
  {
    var challenge := HM.ChallengeOf(cfg.p, cfg.he[i], h');
    if h.pc.ReadTkeyPub? && (cfg.he[i].mode.Qubes? || cfg.he[i].tpm(challenge).Some?) then {challenge} else {}
  }

  function Next(cfg: Parties, w: World, ev: Event): World
    requires Possible(cfg, w, ev)
  {
    match ev
    case ClientGets(i, got) => w.(c := w.c[i := CM.Act(cfg.p, cfg.ce[i], ClientHolding(w.c[i], got))])
    case HostGets(i, got) =>
      var h' := HM.Act(cfg.p, cfg.he[i], HostHolding(w.h[i], got));
      w.(h := w.h[i := h'], signed := w.signed + NewlySigned(cfg, i, w.h[i], h'))
  }

  /** The sessions after any sequence of events; an impossible one changes nothing. */
  function After(cfg: Parties, events: seq<Event>): World {
    if events == [] then Begin(cfg)
    else
      var w := After(cfg, events[..|events| - 1]);
      var ev := events[|events| - 1];
      if Possible(cfg, w, ev) then Next(cfg, w, ev) else w
  }

  /** The host has built its challenge, and so settled on keys and nonces. */
  predicate Built(h: HM.Host) {
    && !h.pc.ReadNonce? && !h.pc.ReadEncNonce? && !h.pc.ReadTkeyPub?
    && |h.nonce| == 32 && |h.tkeyPub| == 32
  }

  predicate HostLengths(h: HM.Host) {
    h.pc.ReadEncNonce? || h.pc.ReadTkeyPub? ==> |h.nonce| == 32
  }

  predicate ClientLengths(c: CM.Client) {
    c.pc.Start? || c.pc.HostPub? || |c.hostPub| == 32
  }

  predicate HasBuilt(cfg: Parties, w: World, challenge: bytes) {
    exists i | 0 <= i < |w.h| && i < |cfg.he| ::
      Built(w.h[i]) && HM.ChallengeOf(cfg.p, cfg.he[i], w.h[i]) == challenge
  }

  predicate Inv(cfg: Parties, w: World) {
    && |w.c| == |cfg.ce| && |w.h| == |cfg.he|
    && (forall i | 0 <= i < |w.h| :: HostLengths(w.h[i]))
    && (forall i | 0 <= i < |w.c| :: ClientLengths(w.c[i]))
    && (forall i | 0 <= i < |w.c| && CM.BeforeLoop(w.c[i]) :: !w.c[i].verified)
    && (forall i | 0 <= i < |w.c| && w.c[i].verified ::
          CM.ChallengeOf(cfg.p, cfg.ce[i], w.c[i]) in w.signed)
    && (forall challenge <- w.signed :: HasBuilt(cfg, w, challenge))
  }

  lemma ClientStep(cfg: Parties, w: World, i: nat, got: bytes)
    requires Inv(cfg, w) && Possible(cfg, w, ClientGets(i, got))
    ensures Inv(cfg, Next(cfg, w, ClientGets(i, got)))
  {
    var w' := Next(cfg, w, ClientGets(i, got));
    forall challenge <- w'.signed ensures HasBuilt(cfg, w', challenge) {
      assert HasBuilt(cfg, w, challenge);
    }
  }

  /** A challenge once built stays as it is. */
  lemma HostActBuilds(cfg: Parties, i: nat, h: HM.Host, got: bytes)
    requires i < |cfg.he| && HM.CanAct(cfg.he[i], HostHolding(h, got)) && HostLengths(h)
    ensures
      var h' := HM.Act(cfg.p, cfg.he[i], HostHolding(h, got));
      && HostLengths(h')
      && (h.pc.ReadTkeyPub? ==> Built(h'))
      && (Built(h) ==> Built(h') && HM.ChallengeOf(cfg.p, cfg.he[i], h') == HM.ChallengeOf(cfg.p, cfg.he[i], h))
  {
    var ready := HostHolding(h, got);
    HM.ActLeads(cfg.p, cfg.he[i], ready);
    HM.ActKeeps(cfg.p, cfg.he[i], ready);
  }

  lemma HostStep(cfg: Parties, w: World, i: nat, got: bytes)
    requires Inv(cfg, w) && Possible(cfg, w, HostGets(i, got))
    ensures Inv(cfg, Next(cfg, w, HostGets(i, got)))
  {
    var w' := Next(cfg, w, HostGets(i, got));
    HostActBuilds(cfg, i, w.h[i], got);
    forall challenge <- w'.signed ensures HasBuilt(cfg, w', challenge) {
      if challenge in w.signed {
        assert HasBuilt(cfg, w, challenge);
        var j :| 0 <= j < |w.h| && j < |cfg.he|
                 && Built(w.h[j]) && HM.ChallengeOf(cfg.p, cfg.he[j], w.h[j]) == challenge;
        assert Built(w'.h[j]) && HM.ChallengeOf(cfg.p, cfg.he[j], w'.h[j]) == challenge;
      } else {
        assert Built(w'.h[i]) && HM.ChallengeOf(cfg.p, cfg.he[i], w'.h[i]) == challenge;
      }
    }
  }

  lemma {:induction false} InvAlways(cfg: Parties, events: seq<Event>)
    ensures Inv(cfg, After(cfg, events))
  {
    if events != [] {
      var w := After(cfg, events[..|events| - 1]);
      var ev := events[|events| - 1];
      InvAlways(cfg, events[..|events| - 1]);
      if Possible(cfg, w, ev) {
        match ev
        case ClientGets(i, got) => ClientStep(cfg, w, i, got);
        case HostGets(i, got) => HostStep(cfg, w, i, got);
      }
    }
  }

  /** The two sessions have the same nonces and each other's public key. */
  predicate SameHandshake(cfg: Parties, w: World, i: nat, j: nat)
    requires i < |w.c| && i < |cfg.ce| && j < |w.h| && j < |cfg.he|
  {
    && Built(w.h[j])
    && w.h[j].nonce == cfg.ce[i].nonce
    && w.h[j].encNonce == cfg.ce[i].encNonce
    && w.h[j].tkeyPub == cfg.p.pub(cfg.ce[i].secret)
    && w.c[i].hostPub == cfg.p.pub(cfg.he[j].secret)
  }

  /** A session whose signature was good has a partner: a host session with the same handshake,
      and so with the same cipher key. */
  lemma VerifiedHasPartner(cfg: Parties, events: seq<Event>, i: nat)
    requires cfg.Valid() && i < |cfg.ce|
    ensures |After(cfg, events).c| == |cfg.ce| && |After(cfg, events).h| == |cfg.he|
    ensures
      var w := After(cfg, events);
      w.c[i].verified ==>
        exists j | 0 <= j < |cfg.he| ::
          && SameHandshake(cfg, w, i, j)
          && CM.Shared(cfg.p, cfg.ce[i], w.c[i]) == HM.Shared(cfg.p, cfg.he[j], w.h[j])
  {
    InvAlways(cfg, events);
    var w := After(cfg, events);
    if w.c[i].verified {
      var challenge := CM.ChallengeOf(cfg.p, cfg.ce[i], w.c[i]);
      assert HasBuilt(cfg, w, challenge);
      var j :| 0 <= j < |w.h| && j < |cfg.he| && Built(w.h[j]) && HM.ChallengeOf(cfg.p, cfg.he[j], w.h[j]) == challenge;
      assert cfg.ce[i].Valid();
      Challenge.LayoutIsInjective(
        cfg.ce[i].nonce, w.c[i].hostPub, cfg.p.pub(cfg.ce[i].secret), cfg.ce[i].encNonce,
        w.h[j].nonce, cfg.p.pub(cfg.he[j].secret), w.h[j].tkeyPub, w.h[j].encNonce);
      assert SameHandshake(cfg, w, i, j);
    }
  }

  ghost predicate NoncesDiffer(cfg: Parties) {
    forall i, j | 0 <= i < j < |cfg.ce| :: cfg.ce[i].nonce != cfg.ce[j].nonce
  }

  /** For the verified TKey sessions, the host sessions that they agree with. */
  predicate Partners(cfg: Parties, w: World, partner: map<nat, nat>) {
    && |w.c| == |cfg.ce| && |w.h| == |cfg.he|
    && (forall i | 0 <= i < |w.c| && w.c[i].verified ::
          i in partner && partner[i] < |cfg.he| && SameHandshake(cfg, w, i, partner[i]))
  }

  predicate Pairing(cfg: Parties, w: World, partner: map<nat, nat>) {
    && Partners(cfg, w, partner)
    && (forall i, j | 0 <= i < j < |w.c| && w.c[i].verified && w.c[j].verified ::
          i in partner && j in partner && partner[i] != partner[j])
  }

  ghost function Partner(cfg: Parties, events: seq<Event>, i: nat): (j: nat)
    requires cfg.Valid() && i < |cfg.ce|
    ensures
      var w := After(cfg, events);
      && |w.c| == |cfg.ce| && |w.h| == |cfg.he|
      && (w.c[i].verified ==> j < |cfg.he| && SameHandshake(cfg, w, i, j))
  {
    VerifiedHasPartner(cfg, events, i);
    var w := After(cfg, events);
    if w.c[i].verified then
      var j :| 0 <= j < |cfg.he| && SameHandshake(cfg, w, i, j);
      j
    else 0
  }

  /** If the device never draws a nonce twice, different verified sessions have different
      partners: no host session, and so no signature of it, serves two of them. */
  lemma AgreementIsInjective(cfg: Parties, events: seq<Event>)
    requires cfg.Valid() && NoncesDiffer(cfg)
    ensures exists partner :: Pairing(cfg, After(cfg, events), partner)
  {
    InvAlways(cfg, events);
    var w := After(cfg, events);
    var partner := map i: nat | 0 <= i < |cfg.ce| :: Partner(cfg, events, i);
    PartnersDiffer(cfg, w, partner);
  }

  lemma PartnersDiffer(cfg: Parties, w: World, partner: map<nat, nat>)
    requires NoncesDiffer(cfg) && Partners(cfg, w, partner)
    ensures Pairing(cfg, w, partner)
  {
    forall i, j | 0 <= i < j < |w.c| && w.c[i].verified && w.c[j].verified ensures partner[i] != partner[j] {
      assert w.h[partner[i]].nonce == cfg.ce[i].nonce;
      assert w.h[partner[j]].nonce == cfg.ce[j].nonce;
    }
  }
}
