/** What the records kept by the two machines say: which keyfiles were delivered, which
    keystream positions were used, which commands were run. */
module Records {
  import opened Bytes
  import opened Primitives
  import opened Messages
  import opened StreamCipher
  import opened System
  import opened ClientMachine
  import opened Framing
  import HM = HostMachine

  /** Two uses of 32 keystream bytes that share none. */
  predicate Apart(u: nat, w: nat) {
    u + 32 <= w || w + 32 <= u
  }

  predicate UsesBefore(used: seq<nat>, pos: nat) {
    && (forall i | 0 <= i < |used| :: used[i] + 32 <= pos)
    && (forall i, j | 0 <= i < j < |used| :: Apart(used[i], used[j]))
  }

  /** No keystream byte has encrypted two plaintext bytes, in either direction. */
  predicate KeystreamFresh(c: Client, h: HM.Host) {
    && UsesBefore(c.used, c.pos)
    && UsesBefore(h.used, h.pos)
    && (forall i, j | 0 <= i < |c.used| && 0 <= j < |h.used| :: Apart(c.used[i], h.used[j]))
  }

  /** The passphrase is what the user's answer number `asked` amounted to. */
  predicate WasTyped(cfg: Config, asked: nat, pass: bytes) {
    && 0 < asked <= |cfg.he.answers|
    && cfg.he.answers[asked - 1].Typed?
    && HM.Accept(cfg.he.mode, cfg.he.answers[asked - 1]) == HM.Some(pass)
    && !cfg.p.argon2Fails(pass)
  }

  /** The keyfile is the one that the passphrase stands for on this device. */
  predicate RightDelivery(cfg: Config, d: HM.Delivery) {
    WasTyped(cfg, d.asked, d.pass) && d.keyfile == cfg.p.Keyfile(cfg.ce.cdi, d.pass)
  }

  /** Later tries have later answers. */
  predicate InOrder(ds: seq<HM.Delivery>) {
    forall i, j | 0 <= i < j < |ds| :: ds[i].attempt < ds[j].attempt && ds[i].asked < ds[j].asked
  }

  predicate DeliveriesRight(cfg: Config, h: HM.Host) {
    && h.asked <= |cfg.he.answers|
    && (h.pc.HashReply? || h.pc.ReadKeyfile? ==>
          && WasTyped(cfg, h.asked, h.pass)
          && forall i | 0 <= i < |h.delivered| :: h.delivered[i].asked < h.asked)
    && (forall i | 0 <= i < |h.delivered| ::
          && RightDelivery(cfg, h.delivered[i])
          && 1 <= h.delivered[i].attempt <= h.tries
          && h.delivered[i].asked <= h.asked)
    && (h.pc.Ask? || h.pc.HashReply? || h.pc.ReadKeyfile? || h.pc.Ready? ==>
          forall i | 0 <= i < |h.delivered| :: h.delivered[i].attempt < h.tries)
    && InOrder(h.delivered)
    && (Stage(h.pc) <= 4 ==> h.delivered == [])
  }

  predicate UnlocksRight(cfg: Config, h: HM.Host) {
    && h.added == []
    && (h.pc == HM.Exit(HM.Success) ==> h.delivered != [] && HM.Opened(cfg.he, h.delivered[|h.delivered| - 1]))
    && (forall i | 0 <= i < |h.delivered| && HM.Opened(cfg.he, h.delivered[i]) ::
          h.pc == HM.Exit(HM.Success) && i == |h.delivered| - 1)
    && (h.pc == HM.Exit(HM.Failure) ==> h.tries >= 3)
  }

  predicate EnrolsRight(cfg: Config, h: HM.Host) {
    && (!h.pc.Exit? ==> h.added == [] && h.delivered == [] && h.told == [])
    && (h.added == [] ||
        (|h.delivered| == 1 &&
         h.added == [HM.AddKey(|cfg.he.current|, cfg.he.current + h.delivered[0].keyfile)]))
    && (h.pc == HM.Exit(HM.Success) <==>
          h.added != [] && cfg.he.addKey(h.added[0].size, h.added[0].piped) == HM.Exited(0))
    && (h.pc == HM.Exit(HM.Failure) <==>
          h.added != [] && HM.FailsWith(cfg.he.addKey(h.added[0].size, h.added[0].piped)))
    && (h.pc.Exit? ==>
          h.told == if h.pc.code.Success? then [DECRYPTION_SUCCESS]
                    else if h.pc.code.Failure? then [DECRYPTION_ERROR] else [])
  }

  predicate CommandsRight(cfg: Config, h: HM.Host) {
    match cfg.he.mode
    case Unlock => UnlocksRight(cfg, h)
    case Enrol => EnrolsRight(cfg, h)
    case Qubes => h.added == []
  }

  ghost predicate Recorded(cfg: Config, c: Client, h: HM.Host) {
    && KeystreamFresh(c, h) && h.pos <= 192
    && DeliveriesRight(cfg, h)
    && CommandsRight(cfg, h)
  }

  /** Where the client is when it encrypts a keyfile: everything used lies before. */
  lemma ClientPositions(cfg: Config, c: Client, h: HM.Host, up: bytes, rest: bytes)
    requires cfg.Valid() && CanAct(c) && c.pc.Hash?
    requires Link(cfg, c, h, up, c.got + rest)
    ensures h.pos == c.pos + 32
  {
    ClientReadsHash(cfg, c, h, up, rest);
  }

  lemma ClientKeepsFresh(cfg: Config, c: Client, h: HM.Host)
    requires CanAct(c) && KeystreamFresh(c, h)
    requires c.pc.Hash? ==> h.pos == c.pos + 32
    ensures KeystreamFresh(Act(cfg.p, cfg.ce, c), h)
  {
    var c' := Act(cfg.p, cfg.ce, c);
    assert c'.used == c.used || (c.pc.Hash? && c'.used == c.used + [c.pos + 32] && c'.pos == c.pos + 64);
  }

  /** Where the host is when it encrypts a hash or decrypts a keyfile. */
  lemma HostPositions(cfg: Config, c: Client, h: HM.Host, up: bytes, down: bytes)
    requires Link(cfg, c, h, up, down)
    ensures h.pc.Ask? ==> h.pos == c.pos && h.pos <= 128
    ensures h.pc.ReadKeyfile? && up != [] ==> h.pos <= 160
  {
  }

  lemma HostKeepsFresh(cfg: Config, c: Client, h: HM.Host)
    requires HM.CanAct(cfg.he, h) && KeystreamFresh(c, h) && h.pos <= 192
    requires h.pc.Ask? ==> h.pos == c.pos && h.pos <= 128
    requires h.pc.ReadKeyfile? ==> h.pos <= 160
    ensures
      var h' := HM.Act(cfg.p, cfg.he, h);
      KeystreamFresh(c, h') && h'.pos <= 192
  {
    var h' := HM.Act(cfg.p, cfg.he, h);
    HM.ActKeeps(cfg.p, cfg.he, h);
    if h.pc.ReadKeyfile? {
      HM.ActReadsKeyfile(cfg.p, cfg.he, h);
    } else if h.pc.Ask? {
      HM.ActLeads(cfg.p, cfg.he, h);
      HM.ActAnswersPrompt(cfg.p, cfg.he, h);
    }
    UsesGrow(c, h, h');
  }

  lemma UsesGrow(c: Client, h: HM.Host, h': HM.Host)
    requires KeystreamFresh(c, h) && h.pos <= h'.pos
    requires h'.used == h.used || (h'.used == h.used + [h.pos] && h'.pos == h.pos + 32 && h.pos == c.pos)
    ensures KeystreamFresh(c, h')
  {
  }

  /** The keyfile that comes out is the client's derivation from the hash that went in. */
  lemma KeyfileArrives(cfg: Config, c: Client, h: HM.Host, rest: bytes, down: bytes)
    requires cfg.Valid() && HM.CanAct(cfg.he, h) && h.pc.ReadKeyfile?
    requires Link(cfg, c, h, HM.TkeyRead(h) + rest, down)
    ensures Apply(cfg.p, HM.Shared(cfg.p, cfg.he, h), h.encNonce, h.pos, h.got)
         == cfg.p.Keyfile(cfg.ce.cdi, h.pass)
  {
    SameKey(cfg, c, h);
    Aligned(h.got, rest, EncryptedKeyfile(cfg, h), []);
    ApplyTwice(cfg.p, Key(cfg), cfg.ce.encNonce, h.pos, cfg.p.blake2s(cfg.ce.cdi, h.hash));
  }

  lemma HostKeepsDeliveries(cfg: Config, h: HM.Host, h': HM.Host)
    requires HM.Leads(h, h') && HM.Keeps(h, h') && DeliveriesRight(cfg, h) && !h.pc.ReadKeyfile?
    requires Stage(h.pc) <= 4 ==> h.tries == 0
    requires h'.asked <= |cfg.he.answers|
    requires h.pc.Ask? && h'.pc.HashReply? ==> WasTyped(cfg, h'.asked, h'.pass)
    ensures DeliveriesRight(cfg, h')
  {
  }

  lemma HostDelivers(cfg: Config, h: HM.Host, h': HM.Host)
    requires HM.Leads(h, h') && HM.KeyfileRead(cfg.p, cfg.he, h, h') && DeliveriesRight(cfg, h)
    requires h.pc.ReadKeyfile? && 1 <= h.tries
    requires HM.InHand(cfg.p, cfg.he, h).keyfile == cfg.p.Keyfile(cfg.ce.cdi, h.pass)
    ensures DeliveriesRight(cfg, h')
  {
    var d := HM.InHand(cfg.p, cfg.he, h);
    assert RightDelivery(cfg, d);
    StillInOrder(h.delivered, d);
  }

  lemma StillInOrder(ds: seq<HM.Delivery>, d: HM.Delivery)
    requires InOrder(ds) && forall i | 0 <= i < |ds| :: ds[i].attempt < d.attempt && ds[i].asked < d.asked
    ensures InOrder(ds + [d])
  {
  }

  lemma HostRunsCommands(cfg: Config, h: HM.Host, h': HM.Host)
    requires HM.Leads(h, h') && HM.KeyfileRead(cfg.p, cfg.he, h, h') && CommandsRight(cfg, h)
    requires h.pc.ReadKeyfile?
    ensures CommandsRight(cfg, h')
  {
    if cfg.he.mode.Unlock? {
      var n := |h.delivered|;
      assert forall i | 0 <= i < n :: !HM.Opened(cfg.he, h.delivered[i]);
      assert forall i | 0 <= i < n :: h'.delivered[i] == h.delivered[i];
    }
  }

  lemma HostKeepsCommands(cfg: Config, h: HM.Host, h': HM.Host)
    requires HM.Leads(h, h') && HM.Keeps(h, h') && CommandsRight(cfg, h) && !h.pc.ReadKeyfile?
    requires h'.pc != HM.Exit(HM.Success)
    requires h'.pc == HM.Exit(HM.Failure) ==> cfg.he.mode.Unlock? && h.tries >= 3
    requires h'.told == h.told || h'.told == []
    ensures CommandsRight(cfg, h')
  {
    if cfg.he.mode.Unlock? {
      assert forall i | 0 <= i < |h.delivered| :: !HM.Opened(cfg.he, h.delivered[i]);
    }
  }

  /** Only a keyfile can end a program well, and only a third try end it badly. */
  lemma HostGivesUp(cfg: Config, h: HM.Host)
    requires HM.CanAct(cfg.he, h) && !h.pc.ReadKeyfile? && !h.pc.Ask?
    ensures
      var h' := HM.Act(cfg.p, cfg.he, h);
      && h'.pc != HM.Exit(HM.Success)
      && (h'.pc == HM.Exit(HM.Failure) ==> cfg.he.mode.Unlock? && h.tries >= 3)
      && h'.told == h.told
      && (h.asked <= |cfg.he.answers| ==> h'.asked <= |cfg.he.answers|)
  {
  }

  lemma ClientActIsRecorded(cfg: Config, c: Client, h: HM.Host, up: bytes, rest: bytes)
    requires cfg.Valid() && CanAct(c)
    requires Link(cfg, c, h, up, c.got + rest) && Recorded(cfg, c, h)
    ensures Recorded(cfg, Act(cfg.p, cfg.ce, c), h)
  {
    if c.pc.Hash? {
      ClientPositions(cfg, c, h, up, rest);
    }
    ClientKeepsFresh(cfg, c, h);
  }

  lemma HostActIsRecorded(cfg: Config, c: Client, h: HM.Host, rest: bytes, down: bytes)
    requires cfg.Valid() && HM.CanAct(cfg.he, h)
    requires Link(cfg, c, h, HM.TkeyRead(h) + rest, down) && Recorded(cfg, c, h)
    ensures Recorded(cfg, c, HM.Act(cfg.p, cfg.he, h))
  {
    var h' := HM.Act(cfg.p, cfg.he, h);
    HostPositions(cfg, c, h, HM.TkeyRead(h) + rest, down);
    HostKeepsFresh(cfg, c, h);
    HM.ActLeads(cfg.p, cfg.he, h);
    HM.ActKeeps(cfg.p, cfg.he, h);
    if h.pc.ReadKeyfile? {
      KeyfileArrives(cfg, c, h, rest, down);
      HM.ActReadsKeyfile(cfg.p, cfg.he, h);
      HostDelivers(cfg, h, h');
      HostRunsCommands(cfg, h, h');
    } else {
      if h.pc.Ask? {
        HM.ActAnswersPrompt(cfg.p, cfg.he, h);
      } else {
        HostGivesUp(cfg, h);
      }
      HostKeepsDeliveries(cfg, h, h');
      HostKeepsCommands(cfg, h, h');
    }
  }
}
