/** What is in flight between TKey and host, as a function of where the two programs are. */
module Framing {
  import opened Bytes
  import opened Primitives
  import opened Messages
  import opened StreamCipher
  import opened System
  import opened ClientMachine
  import HM = HostMachine

  /** How far the host has come: 3 is the stretch in which the TPM is being asked, 5 the tries. */
  function Stage(pc: HM.HostPc): nat {
    match pc
    case ReadNonce => 0
    case ReadEncNonce => 1
    case ReadTkeyPub => 2
    case DomStatus => 3
    case DomSig => 3
    case AuthReply => 4
    case Exit(_) => 6
    case _ => 5
  }

  function HostPubOf(cfg: Config): bytes {
    cfg.p.pub(cfg.he.secret)
  }

  function TkeyPubOf(cfg: Config): bytes {
    cfg.p.pub(cfg.ce.secret)
  }

  /** The secret both sides arrive at. */
  function Key(cfg: Config): bytes {
    cfg.p.dh(cfg.he.secret, TkeyPubOf(cfg))
  }

  function Encrypted(cfg: Config, pos: nat, data: bytes): bytes {
    Apply(cfg.p, Key(cfg), cfg.ce.encNonce, pos, data)
  }

  function EncryptedKeyfile(cfg: Config, h: HM.Host): bytes {
    Encrypted(cfg, h.pos, cfg.p.blake2s(cfg.ce.cdi, h.hash))
  }

  /** What the client has sent after its public key and before its first passphrase request,
      as long as the host has read none of it. */
  function AuthBytes(c: Client): bytes {
    match c.pc
    case Touch(_) => [INVALID_SIG]
    case Loop => if c.verified then [GOOD_SIG] else [INVALID_SIG]
    case Hash => (if c.verified then [GOOD_SIG] else [INVALID_SIG]) + [READY_4_PASS]
    case Aborted(why) => (
      match why
      case BadKey => [BAD_PUBKEY]
      case BadSig => [MALFORMED_SIG]
      case _ => [INVALID_SIG])
    case _ => []
  }

  /** Everything on its way up to a host that is still running. */
  function ExpectedUp(cfg: Config, c: Client, h: HM.Host): bytes {
    match h.pc
    case ReadNonce => if c.pc.Start? then [] else cfg.ce.nonce + (cfg.ce.encNonce + TkeyPubOf(cfg))
    case ReadEncNonce => cfg.ce.encNonce + TkeyPubOf(cfg)
    case ReadTkeyPub => TkeyPubOf(cfg) + AuthBytes(c)
    case DomStatus => AuthBytes(c)
    case DomSig => AuthBytes(c)
    case AuthReply => AuthBytes(c)
    case Ready => if c.pc.Hash? then [READY_4_PASS] else []
    case HashReply => (
      match c.pc
      case Hash => if h.tries == c.attempts then [] else [BLAKE2_ERROR, READY_4_PASS]
      case Result => [GOOD_PASS] + EncryptedKeyfile(cfg, h)
      case _ => [BLAKE2_ERROR])
    case ReadKeyfile => EncryptedKeyfile(cfg, h)
    case _ => []
  }

  /** Everything on its way down to a client that is still running. */
  function ExpectedDown(cfg: Config, c: Client, h: HM.Host): bytes {
    match c.pc
    case HostPub => (
      match h.pc
      case ReadNonce => []
      case ReadEncNonce => []
      case AuthReply => HostPubOf(cfg) + HM.StatusMessage(h)
      case Exit(_) => if h.tkeyPub == [] then [] else HostPubOf(cfg)
      case _ => HostPubOf(cfg))
    case Status => if h.pc.AuthReply? then HM.StatusMessage(h) else []
    case Sig => if h.sig.Some? then h.sig.value else []
    case Hash =>
      if h.pc.HashReply? && h.tries == c.attempts then Encrypted(cfg, c.pos, h.hash) else []
    case Result => if h.pc.Ready? || h.pc.Exit? then h.told else []
    case _ => []
  }

  /** Which pairs of program counters and attempt counters can occur together. */
  predicate Agree(c: Client, h: HM.Host) {
    var dead := h.pc == HM.Exit(HM.Error);
    var failed := dead || h.pc == HM.Exit(HM.Failure);
    match c.pc
    case Start => h.pc.ReadNonce? || (dead && h.tries == 0 && h.tkeyPub == [])
    case HostPub => Stage(h.pc) <= 4 || (dead && h.tries == 0)
    case Status => 2 <= Stage(h.pc) <= 4 || (dead && h.tries == 0)
    case Sig => h.pc.AuthReply? && h.sig.Some?
    case Touch(_) => h.pc.AuthReply? || (h.pc.Ready? && h.tries == 1)
    case Loop =>
      if c.attempts == 0 then h.pc.AuthReply? || (h.pc.Ready? && h.tries == 1)
      else
        || (h.pc.HashReply? && h.tries == c.attempts)
        || (h.pc.Ready? && h.tries == c.attempts + 1)
        || (failed && h.tries == c.attempts)
    case Hash =>
      || (h.pc.AuthReply? && c.attempts == 1)
      || ((h.pc.Ready? || h.pc.Ask? || h.pc.HashReply?) && h.tries == c.attempts)
      || (h.pc.HashReply? && h.tries + 1 == c.attempts)
      || (failed && h.tries <= c.attempts && (h.pc == HM.Exit(HM.Failure) ==> h.tries < c.attempts))
    case Result =>
      || ((h.pc.HashReply? || h.pc.ReadKeyfile? || h.pc.DomResult? || h.pc.DomWait?) && h.tries == c.attempts)
      || (h.pc.Ready? && h.tries == c.attempts + 1 && h.told == [DECRYPTION_ERROR])
      || (dead && h.tries == c.attempts && h.told == [])
      || (failed && h.tries == c.attempts && h.told == [DECRYPTION_ERROR])
      || (h.pc == HM.Exit(HM.Success) && h.tries == c.attempts && h.told == [DECRYPTION_SUCCESS])
    case Done => h.pc == HM.Exit(HM.Success)
    case Aborted(why) => (
      match why
      case BadKey => 2 <= Stage(h.pc) <= 4 || (h.pc.Ready? && h.tries == 1) || dead
      case Exhausted => (h.pc.HashReply? && h.tries == 3) || failed
      case _ => h.pc.AuthReply? || (h.pc.Ready? && h.tries == 1) || dead)
  }

  /** The two cipher positions, while the host runs: they differ only by what is in flight. */
  predicate PositionsAgree(c: Client, h: HM.Host) {
    if Stage(h.pc) <= 4 then c.pos == 0 && h.pos == 0
    else if h.pc.HashReply? && c.pc.Hash? && h.tries == c.attempts then h.pos == c.pos + 32
    else if (h.pc.HashReply? || h.pc.ReadKeyfile?) && c.pc.Result? then c.pos == h.pos + 32
    else c.pos == h.pos
  }

  /** What the host has learnt is what the client said, and the other way round. */
  ghost predicate Facts(cfg: Config, c: Client, h: HM.Host) {
    var stage := Stage(h.pc);
    && (stage == 0 ==> h.tkeyPub == [])
    && (stage == 1 ==> h.tkeyPub == [])
    && (stage == 2 ==> h.tkeyPub == [])
    && (1 <= stage <= 5 ==> h.nonce == cfg.ce.nonce)
    && (2 <= stage <= 5 ==> h.encNonce == cfg.ce.encNonce)
    && (3 <= stage <= 5 ==> h.tkeyPub == TkeyPubOf(cfg))
    && (!c.pc.Start? && !c.pc.HostPub? ==> c.hostPub == HostPubOf(cfg))
    && (stage <= 4 ==> h.tries == 0)
    && (stage <= 3 ==> h.sig == HM.None)
    && (stage == 5 ==> 1 <= h.tries <= 3)
    && h.tries <= 3
    && (!cfg.he.mode.Unlock? ==> h.tries <= 1)
    && (HM.FromDom(h) || h.pc.DomWait? ==> cfg.he.mode.Qubes?)
    && (h.sig.Some? ==> |h.sig.value| == 64)
    && (h.pc.HashReply? || h.pc.ReadKeyfile? ==> h.hash == cfg.p.argon2(h.pass) && h.told == [])
    && (h.pc.DomResult? || h.pc.DomWait? ==> h.told == [])
    && (h.told == [DECRYPTION_SUCCESS] ==> h.pc == HM.Exit(HM.Success))
    && (c.verified ==> h.sig.Some?)
    && (!cfg.he.mode.Qubes? ==>
          && (h.pc.AuthReply? ==> (h.trustworthy <==> h.sig.Some?))
          && (h.tries >= 1 ==> (h.trustworthy <==> c.verified)))
  }

  ghost predicate Link(cfg: Config, c: Client, h: HM.Host, up: bytes, down: bytes) {
    && Safe(cfg.ce, c)
    && Facts(cfg, c, h)
    && Agree(c, h)
    && (h.pc.Exit? || PositionsAgree(c, h))
    && (h.pc.Exit? || up == ExpectedUp(cfg, c, h))
    && (c.pc.Aborted? || down == ExpectedDown(cfg, c, h))
  }

  lemma SameKey(cfg: Config, c: Client, h: HM.Host)
    requires cfg.p.Valid()
    ensures c.hostPub == HostPubOf(cfg) ==> Shared(cfg.p, cfg.ce, c) == Key(cfg)
    ensures h.tkeyPub == TkeyPubOf(cfg) ==> HM.Shared(cfg.p, cfg.he, h) == Key(cfg)
  {
    assert cfg.p.dh(cfg.ce.secret, cfg.p.pub(cfg.he.secret)) == cfg.p.dh(cfg.he.secret, cfg.p.pub(cfg.ce.secret));
  }

  lemma ClientReadsHostPub(cfg: Config, c: Client, h: HM.Host, up: bytes, rest: bytes)
    requires cfg.Valid() && CanAct(c) && c.pc.HostPub?
    requires Link(cfg, c, h, up, c.got + rest)
    ensures
      var c' := Act(cfg.p, cfg.ce, c);
      Link(cfg, c', h, up + c'.pend, rest)
  {
    ActIsSafe(cfg.p, cfg.ce, c);
    var tail := if h.pc.AuthReply? then HM.StatusMessage(h) else [];
    assert HostPubOf(cfg) + [] == HostPubOf(cfg);
    Aligned(c.got, rest, HostPubOf(cfg), tail);
  }

  lemma ClientReadsStatus(cfg: Config, c: Client, h: HM.Host, up: bytes, rest: bytes)
    requires cfg.Valid() && CanAct(c) && c.pc.Status?
    requires Link(cfg, c, h, up, c.got + rest)
    ensures
      var c' := Act(cfg.p, cfg.ce, c);
      Link(cfg, c', h, up + c'.pend, rest)
  {
    ActIsSafe(cfg.p, cfg.ce, c);
    if h.sig.Some? {
      Aligned(c.got, rest, [TPM_SIGNED], h.sig.value);
    } else {
      Aligned(c.got, rest, [TPM_REFUSED_TO_SIGN], []);
    }
  }

  lemma ClientReadsHash(cfg: Config, c: Client, h: HM.Host, up: bytes, rest: bytes)
    requires cfg.Valid() && CanAct(c) && c.pc.Hash?
    requires Link(cfg, c, h, up, c.got + rest)
    ensures h.pc.HashReply? && h.tries == c.attempts && c.got == Encrypted(cfg, c.pos, h.hash)
    ensures
      var c' := Act(cfg.p, cfg.ce, c);
      Link(cfg, c', h, up + c'.pend, rest)
  {
    ActIsSafe(cfg.p, cfg.ce, c);
    SameKey(cfg, c, h);
    Aligned(c.got, rest, Encrypted(cfg, c.pos, h.hash), []);
    ApplyTwice(cfg.p, Key(cfg), cfg.ce.encNonce, c.pos, h.hash);
    var c' := Act(cfg.p, cfg.ce, c);
    assert up + c'.pend == c'.pend;
  }

  lemma ClientStarts(cfg: Config, c: Client, h: HM.Host, up: bytes, rest: bytes)
    requires cfg.Valid() && CanAct(c) && (c.pc.Start?)
    requires Link(cfg, c, h, up, c.got + rest)
    ensures
      var c' := Act(cfg.p, cfg.ce, c);
      Link(cfg, c', h, up + c'.pend, rest)
  {
    ActIsSafe(cfg.p, cfg.ce, c);
    var c' := Act(cfg.p, cfg.ce, c);
    assert c'.pend == cfg.ce.nonce + (cfg.ce.encNonce + TkeyPubOf(cfg));
    assert up + c'.pend == c'.pend || h.pc.Exit?;
    assert c.got + rest == rest;
  }

  lemma ClientReadsSig(cfg: Config, c: Client, h: HM.Host, up: bytes, rest: bytes)
    requires cfg.Valid() && CanAct(c) && (c.pc.Sig?)
    requires Link(cfg, c, h, up, c.got + rest)
    ensures
      var c' := Act(cfg.p, cfg.ce, c);
      Link(cfg, c', h, up + c'.pend, rest)
  {
    ActIsSafe(cfg.p, cfg.ce, c);
    var c' := Act(cfg.p, cfg.ce, c);
    Aligned(c.got, rest, h.sig.value, []);
    assert up + c'.pend == c'.pend;
  }

  lemma ClientIsTouched(cfg: Config, c: Client, h: HM.Host, up: bytes, rest: bytes)
    requires cfg.Valid() && CanAct(c) && (c.pc.Touch?)
    requires Link(cfg, c, h, up, c.got + rest)
    ensures
      var c' := Act(cfg.p, cfg.ce, c);
      Link(cfg, c', h, up + c'.pend, rest)
  {
    ActIsSafe(cfg.p, cfg.ce, c);
    var c' := Act(cfg.p, cfg.ce, c);
    assert c.got + rest == rest;
    assert up + c'.pend == up;
  }

  lemma ClientRequests(cfg: Config, c: Client, h: HM.Host, up: bytes, rest: bytes)
    requires cfg.Valid() && CanAct(c) && (c.pc.Loop?)
    requires Link(cfg, c, h, up, c.got + rest)
    ensures
      var c' := Act(cfg.p, cfg.ce, c);
      Link(cfg, c', h, up + c'.pend, rest)
  {
    ActIsSafe(cfg.p, cfg.ce, c);
    var c' := Act(cfg.p, cfg.ce, c);
    assert c.got + rest == rest;
    assert up + c'.pend == (if c.attempts >= 3 then up else up + [READY_4_PASS]);
  }

  lemma ClientReadsResult(cfg: Config, c: Client, h: HM.Host, up: bytes, rest: bytes)
    requires cfg.Valid() && CanAct(c) && (c.pc.Result?)
    requires Link(cfg, c, h, up, c.got + rest)
    ensures
      var c' := Act(cfg.p, cfg.ce, c);
      Link(cfg, c', h, up + c'.pend, rest)
  {
    ActIsSafe(cfg.p, cfg.ce, c);
    var c' := Act(cfg.p, cfg.ce, c);
    Aligned(c.got, rest, h.told, []);
    assert up + c'.pend == up;
  }

  /** An action of the client keeps the link: it takes what it read off the way down and
      adds what it writes to the way up. */
  lemma ClientActs(cfg: Config, c: Client, h: HM.Host, up: bytes, rest: bytes)
    requires cfg.Valid() && CanAct(c)
    requires Link(cfg, c, h, up, c.got + rest)
    ensures
      var c' := Act(cfg.p, cfg.ce, c);
      Link(cfg, c', h, up + c'.pend, rest)
  {
    match c.pc
    case Start => ClientStarts(cfg, c, h, up, rest);
    case HostPub => ClientReadsHostPub(cfg, c, h, up, rest);
    case Status => ClientReadsStatus(cfg, c, h, up, rest);
    case Sig => ClientReadsSig(cfg, c, h, up, rest);
    case Touch(_) => ClientIsTouched(cfg, c, h, up, rest);
    case Loop => ClientRequests(cfg, c, h, up, rest);
    case Hash => ClientReadsHash(cfg, c, h, up, rest);
    case Result => ClientReadsResult(cfg, c, h, up, rest);
    case _ =>
  }

  lemma HostReadsNonce(cfg: Config, c: Client, h: HM.Host, rest: bytes, down: bytes)
    requires cfg.Valid() && HM.CanAct(cfg.he, h) && (h.pc.ReadNonce?)
    requires Link(cfg, c, h, HM.TkeyRead(h) + rest, down)
    ensures
      var h' := HM.Act(cfg.p, cfg.he, h);
      Link(cfg, c, h', rest, down + h'.pend)
  {
    var h' := HM.Act(cfg.p, cfg.he, h);
    Aligned(h.got, rest, cfg.ce.nonce, cfg.ce.encNonce + TkeyPubOf(cfg));
    assert down + h'.pend == down;
  }

  lemma HostReadsEncNonce(cfg: Config, c: Client, h: HM.Host, rest: bytes, down: bytes)
    requires cfg.Valid() && HM.CanAct(cfg.he, h) && (h.pc.ReadEncNonce?)
    requires Link(cfg, c, h, HM.TkeyRead(h) + rest, down)
    ensures
      var h' := HM.Act(cfg.p, cfg.he, h);
      Link(cfg, c, h', rest, down + h'.pend)
  {
    var h' := HM.Act(cfg.p, cfg.he, h);
    Aligned(h.got, rest, cfg.ce.encNonce, TkeyPubOf(cfg));
    assert down + h'.pend == HostPubOf(cfg) || c.pc.Aborted?;
  }

  lemma HostReadsTkeyPub(cfg: Config, c: Client, h: HM.Host, rest: bytes, down: bytes)
    requires cfg.Valid() && HM.CanAct(cfg.he, h) && (h.pc.ReadTkeyPub?)
    requires Link(cfg, c, h, HM.TkeyRead(h) + rest, down)
    ensures
      var h' := HM.Act(cfg.p, cfg.he, h);
      Link(cfg, c, h', rest, down + h'.pend)
  {
    var h' := HM.Act(cfg.p, cfg.he, h);
    Aligned(h.got, rest, TkeyPubOf(cfg), AuthBytes(c));
    assert cfg.he.mode.Qubes? ==> down + h'.pend == down;
    assert c.pc.Status? && !cfg.he.mode.Qubes? ==> down + h'.pend == h'.pend;
  }

  /** What dom0's status byte makes of the host. */
  lemma StatusHeard(cfg: Config, h: HM.Host)
    requires HM.CanAct(cfg.he, h) && h.pc.DomStatus?
    ensures
      var h' := HM.Act(cfg.p, cfg.he, h);
      && h' == h.(pc := h'.pc, pend := h'.pend, got := [])
      && if h'.pc.AuthReply? then h'.pend == [TPM_REFUSED_TO_SIGN]
         else h'.pend == [] && (h'.pc.DomSig? || h'.pc == HM.Exit(HM.Error))
  {
  }

  lemma HostHearsStatus(cfg: Config, c: Client, h: HM.Host, rest: bytes, down: bytes)
    requires cfg.Valid() && HM.CanAct(cfg.he, h) && h.pc.DomStatus?
    requires Link(cfg, c, h, HM.TkeyRead(h) + rest, down)
    ensures
      var h' := HM.Act(cfg.p, cfg.he, h);
      Link(cfg, c, h', rest, down + h'.pend)
  {
    StatusHeard(cfg, h);
    StatusLinked(cfg, c, h, HM.Act(cfg.p, cfg.he, h), rest, down);
  }

  lemma StatusLinked(cfg: Config, c: Client, h: HM.Host, h': HM.Host, rest: bytes, down: bytes)
    requires cfg.Valid() && h.pc.DomStatus? && Link(cfg, c, h, HM.TkeyRead(h) + rest, down)
    requires h' == h.(pc := h'.pc, pend := h'.pend, got := [])
    requires if h'.pc.AuthReply? then h'.pend == [TPM_REFUSED_TO_SIGN]
             else h'.pend == [] && (h'.pc.DomSig? || h'.pc == HM.Exit(HM.Error))
    ensures Link(cfg, c, h', rest, down + h'.pend)
  {
    assert HM.TkeyRead(h) + rest == rest;
    assert down + [] == down && (down == [] ==> down + h'.pend == h'.pend);
  }

  lemma HostRelaysSig(cfg: Config, c: Client, h: HM.Host, rest: bytes, down: bytes)
    requires cfg.Valid() && HM.CanAct(cfg.he, h) && (h.pc.DomSig? || h.pc.DomResult?)
    requires Link(cfg, c, h, HM.TkeyRead(h) + rest, down)
    ensures
      var h' := HM.Act(cfg.p, cfg.he, h);
      Link(cfg, c, h', rest, down + h'.pend)
  {
    var h' := HM.Act(cfg.p, cfg.he, h);
    assert HM.TkeyRead(h) + rest == rest;
    assert down + [] == down && (down == [] ==> down + h'.pend == h'.pend);
  }

  lemma HostReadsAuthReply(cfg: Config, c: Client, h: HM.Host, rest: bytes, down: bytes)
    requires cfg.Valid() && HM.CanAct(cfg.he, h) && (h.pc.AuthReply?)
    requires Link(cfg, c, h, HM.TkeyRead(h) + rest, down)
    ensures
      var h' := HM.Act(cfg.p, cfg.he, h);
      Link(cfg, c, h', rest, down + h'.pend)
  {
    var h' := HM.Act(cfg.p, cfg.he, h);
    var reply := AuthBytes(c);
    Aligned(h.got, rest, [reply[0]], reply[1..]);
    assert down + h'.pend == down;
  }

  lemma HostReadsReady(cfg: Config, c: Client, h: HM.Host, rest: bytes, down: bytes)
    requires cfg.Valid() && HM.CanAct(cfg.he, h) && (h.pc.Ready?)
    requires Link(cfg, c, h, HM.TkeyRead(h) + rest, down)
    ensures
      var h' := HM.Act(cfg.p, cfg.he, h);
      Link(cfg, c, h', rest, down + h'.pend)
  {
    var h' := HM.Act(cfg.p, cfg.he, h);
    Aligned(h.got, rest, [READY_4_PASS], []);
    assert down + h'.pend == down;
  }

  lemma HostAsks(cfg: Config, c: Client, h: HM.Host, h': HM.Host, rest: bytes, down: bytes)
    requires h.pc.Ask? && h.asked < |cfg.he.answers| && h.got == [] && h.pend == [] && cfg.p.Valid()
    requires HM.Leads(h, h') && HM.Keeps(h, h') && HM.PromptAnswered(cfg.p, cfg.he, h, h')
    requires Link(cfg, c, h, HM.TkeyRead(h) + rest, down)
    ensures Link(cfg, c, h', rest, down + h'.pend)
  {
    assert HM.TkeyRead(h) + rest == rest;
    if h'.pc.HashReply? {
      HostSendsHash(cfg, c, h, h', rest, down);
    } else {
      assert h'.pend == [] && down + [] == down;
      HostSendsNothing(cfg, c, h, h', rest, down);
    }
  }

  lemma HostSendsHash(cfg: Config, c: Client, h: HM.Host, h': HM.Host, up: bytes, down: bytes)
    requires h.pc.Ask? && h.asked < |cfg.he.answers| && cfg.p.Valid() && h'.pc.HashReply?
    requires HM.Leads(h, h') && HM.Keeps(h, h') && HM.PromptAnswered(cfg.p, cfg.he, h, h')
    requires Link(cfg, c, h, up, down)
    ensures Link(cfg, c, h', up, down + h'.pend)
  {
    SameKey(cfg, c, h);
    assert down == [] && down + h'.pend == h'.pend;
  }

  lemma HostSendsNothing(cfg: Config, c: Client, h: HM.Host, h': HM.Host, up: bytes, down: bytes)
    requires h.pc.Ask? && h.asked < |cfg.he.answers| && cfg.p.Valid() && !h'.pc.HashReply?
    requires HM.Leads(h, h') && HM.Keeps(h, h') && HM.PromptAnswered(cfg.p, cfg.he, h, h')
    requires Link(cfg, c, h, up, down)
    ensures Link(cfg, c, h', up, down)
  {
  }

  lemma HostHearsHashFailed(cfg: Config, c: Client, h: HM.Host, rest: bytes, down: bytes)
    requires cfg.Valid() && HM.CanAct(cfg.he, h) && h.pc.HashReply? && !c.pc.Result?
    requires Link(cfg, c, h, HM.TkeyRead(h) + rest, down)
    ensures
      var h' := HM.Act(cfg.p, cfg.he, h);
      Link(cfg, c, h', rest, down + h'.pend)
  {
    HashFailed(cfg, c, h, rest, down);
    var h' := HM.Act(cfg.p, cfg.he, h);
    assert down + h'.pend == down;
    if cfg.he.mode.Unlock? {
      NextTryLinked(cfg, c, h, rest, down);
    } else {
      GivenUpLinked(cfg, c, h, rest, down);
    }
  }

  lemma HashFailed(cfg: Config, c: Client, h: HM.Host, rest: bytes, down: bytes)
    requires HM.CanAct(cfg.he, h) && h.pc.HashReply? && !c.pc.Result?
    requires Link(cfg, c, h, HM.TkeyRead(h) + rest, down)
    ensures h.got == [BLAKE2_ERROR] && rest == if c.pc.Hash? then [READY_4_PASS] else []
    ensures HM.Act(cfg.p, cfg.he, h) ==
              if cfg.he.mode.Unlock? then HM.NextTry(h.(got := [])) else h.(got := [], pc := HM.Exit(HM.Error))
  {
    Aligned(h.got, rest, [BLAKE2_ERROR], if c.pc.Hash? then [READY_4_PASS] else []);
  }

  lemma NextTryLinked(cfg: Config, c: Client, h: HM.Host, rest: bytes, down: bytes)
    requires h.pc.HashReply? && !c.pc.Result? && cfg.he.mode.Unlock?
    requires Link(cfg, c, h, HM.TkeyRead(h) + rest, down)
    requires h.got == [BLAKE2_ERROR] && rest == if c.pc.Hash? then [READY_4_PASS] else []
    ensures Link(cfg, c, HM.NextTry(h.(got := [])), rest, down)
  {
  }

  lemma GivenUpLinked(cfg: Config, c: Client, h: HM.Host, rest: bytes, down: bytes)
    requires cfg.Valid() && h.pc.HashReply? && !c.pc.Result? && !cfg.he.mode.Unlock?
    requires Link(cfg, c, h, HM.TkeyRead(h) + rest, down)
    requires h.got == [BLAKE2_ERROR] && rest == if c.pc.Hash? then [READY_4_PASS] else []
    ensures Link(cfg, c, h.(got := [], pc := HM.Exit(HM.Error)), rest, down)
  {
  }

  lemma HostHearsGoodPass(cfg: Config, c: Client, h: HM.Host, rest: bytes, down: bytes)
    requires cfg.Valid() && HM.CanAct(cfg.he, h) && h.pc.HashReply? && c.pc.Result?
    requires Link(cfg, c, h, HM.TkeyRead(h) + rest, down)
    ensures
      var h' := HM.Act(cfg.p, cfg.he, h);
      Link(cfg, c, h', rest, down + h'.pend)
  {
    var h' := HM.Act(cfg.p, cfg.he, h);
    Aligned(h.got, rest, [GOOD_PASS], EncryptedKeyfile(cfg, h));
    assert down + h'.pend == down;
  }

  lemma HostReadsKeyfile(cfg: Config, c: Client, h: HM.Host, h': HM.Host, rest: bytes, down: bytes)
    requires HM.Leads(h, h') && HM.Keeps(h, h') && HM.KeyfileRead(cfg.p, cfg.he, h, h')
    requires h.pc.ReadKeyfile? && |h.got| == 32 && cfg.p.Valid()
    requires Link(cfg, c, h, HM.TkeyRead(h) + rest, down)
    ensures Link(cfg, c, h', rest, down + h'.pend)
  {
    Aligned(h.got, rest, EncryptedKeyfile(cfg, h), []);
    assert down + h'.pend == h'.pend;
    assert h'.pc.Exit? ==>
      h'.pc.code == HM.Success || h'.pc.code == HM.Failure || h'.pc.code == HM.Error;
  }

  /** An action of the host keeps the link. */
  lemma HostActs(cfg: Config, c: Client, h: HM.Host, rest: bytes, down: bytes)
    requires cfg.Valid() && HM.CanAct(cfg.he, h)
    requires Link(cfg, c, h, HM.TkeyRead(h) + rest, down)
    ensures
      var h' := HM.Act(cfg.p, cfg.he, h);
      Link(cfg, c, h', rest, down + h'.pend)
  {
    match h.pc
    case ReadNonce => HostReadsNonce(cfg, c, h, rest, down);
    case ReadEncNonce => HostReadsEncNonce(cfg, c, h, rest, down);
    case ReadTkeyPub => HostReadsTkeyPub(cfg, c, h, rest, down);
    case DomStatus => HostHearsStatus(cfg, c, h, rest, down);
    case DomSig => HostRelaysSig(cfg, c, h, rest, down);
    case AuthReply => HostReadsAuthReply(cfg, c, h, rest, down);
    case Ready => HostReadsReady(cfg, c, h, rest, down);
    case Ask =>
      HM.ActLeads(cfg.p, cfg.he, h);
      HM.ActKeeps(cfg.p, cfg.he, h);
      HM.ActAnswersPrompt(cfg.p, cfg.he, h);
      HostAsks(cfg, c, h, HM.Act(cfg.p, cfg.he, h), rest, down);
    case HashReply =>
      if c.pc.Result? { HostHearsGoodPass(cfg, c, h, rest, down); } else { HostHearsHashFailed(cfg, c, h, rest, down); }
    case ReadKeyfile =>
      HM.ActLeads(cfg.p, cfg.he, h);
      HM.ActKeeps(cfg.p, cfg.he, h);
      HM.ActReadsKeyfile(cfg.p, cfg.he, h);
      HostReadsKeyfile(cfg, c, h, HM.Act(cfg.p, cfg.he, h), rest, down);
    case DomResult => HostRelaysSig(cfg, c, h, rest, down);
    case _ =>
  }

  /** So do the two ways in which the end of dom0's program reaches the host. */
  lemma HostSeesEof(cfg: Config, c: Client, h: HM.Host, up: bytes, down: bytes)
    requires cfg.Valid() && Link(cfg, c, h, up, down) && HM.FromDom(h)
    ensures Link(cfg, c, h.(pc := HM.Exit(HM.Error), got := []), up, down)
  {
  }

  lemma HostSeesExit(cfg: Config, c: Client, h: HM.Host, up: bytes, down: bytes, ok: bool)
    requires cfg.Valid() && Link(cfg, c, h, up, down) && h.pc.DomWait? && h.pend == []
    ensures
      var h' := HM.SeeExit(h, ok);
      Link(cfg, c, h', up, down + h'.pend)
  {
    assert down + [] == down && (down == [] ==> down + [DECRYPTION_SUCCESS] == [DECRYPTION_SUCCESS]);
  }
}
