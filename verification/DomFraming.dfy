/** What is in flight between the Qubes virtual machine and dom0. */
module DomFraming {
  import opened Bytes
  import opened Messages
  import opened System
  import opened HostMachine
  import opened Dom0Machine
  import opened Framing
  import Qrexec
  import CM = ClientMachine

  /** The keyfile sent to dom0. */
  function SentKeyfile(h: Host): (r: bytes)
    ensures |r| == 32
  {
    if |h.delivered| == 1 && |h.delivered[0].keyfile| == 32 then h.delivered[0].keyfile else Zeros(32)
  }

  predicate HasSent(h: Host) {
    |h.delivered| == 1 && |h.delivered[0].keyfile| == 32
  }

  function SlotByte(h: Host): byte {
    if h.slot.Some? then h.slot.value else DO_NOTHING
  }

  /** What dom0 takes for the keyfile, and what is left of the message after it. */
  function KeyTaken(cfg: Config, h: Host): (r: bytes)
    ensures |r| == 32
  {
    Qrexec.TakenKey(cfg.he.current, SentKeyfile(h))
  }

  function Left(cfg: Config, h: Host): bytes {
    Qrexec.LeftOver(cfg.he.current, SentKeyfile(h))
  }

  /** What dom0 takes for the slot byte: the one that is sent only if nothing is left before it. */
  function SlotTaken(cfg: Config, h: Host): byte {
    if Left(cfg, h) == [] then SlotByte(h) else Left(cfg, h)[0]
  }

  /** luksAddKey has succeeded. */
  predicate Added(cfg: Config, v: Dom0) {
    v.added != [] && cfg.ve.addKey(v.added[0].size, v.added[0].piped) == Exited(0)
  }

  /** Everything on its way to a dom0 program that is still running. */
  function ExpectedRequest(cfg: Config, h: Host, v: Dom0): bytes {
    match v.pc
    case ReadChallenge => if h.pc.DomStatus? then HostMachine.ChallengeOf(cfg.p, cfg.he, h) else []
    case ReadLength => if h.pc.DomResult? then Qrexec.Encode(cfg.he.current, SentKeyfile(h)) else []
    case ReadPass(_) => Qrexec.Taken(cfg.he.current) + (KeyTaken(cfg, h) + Left(cfg, h))
    case ReadKey => KeyTaken(cfg, h) + Left(cfg, h)
    case ReadSlot => Left(cfg, h) + if h.pc.DomWait? then [SlotByte(h)] else []
    case _ => []
  }

  /** Everything on its way back to a host that is still running. */
  function ExpectedResponse(cfg: Config, h: Host, v: Dom0): bytes {
    match h.pc
    case DomStatus => if v.pc.ReadLength? then DomStatusMessage(v) else []
    case DomSig => if v.sig.Some? then v.sig.value else []
    case DomResult => if Added(cfg, v) then [DECRYPTION_SUCCESS] else []
    case _ => []
  }

  predicate DomAgree(h: Host, v: Dom0) {
    var failed := h.pc.Exit? && h.pc != Exit(Success);
    match v.pc
    case ReadChallenge => Stage(h.pc) <= 2 || h.pc.DomStatus? || failed
    case ReadLength =>
      || h.pc.DomStatus? || (h.pc.DomSig? && v.sig.Some?) || h.pc.AuthReply?
      || h.pc.Ready? || h.pc.Ask? || h.pc.HashReply? || h.pc.ReadKeyfile? || h.pc.DomResult? || failed
    case ReadPass(_) => h.pc.DomResult?
    case ReadKey => h.pc.DomResult?
    case ReadSlot => h.pc.DomResult? || h.pc.DomWait?
    case Ended(ok) => h.pc.DomResult? || h.pc.DomWait? || if ok then h.pc == Exit(Success) else failed
  }

  /** The add-key command that dom0 makes of what it takes. */
  function RightAddKey(cfg: Config, h: Host): AddKey {
    var pass := Qrexec.Taken(cfg.he.current);
    AddKey(|pass|, pass + KeyTaken(cfg, h))
  }

  /** The kill-slot command that dom0 makes of what it takes. */
  function RightKillSlot(cfg: Config, h: Host): KillSlot {
    KillSlot(KeyTaken(cfg, h), SlotTaken(cfg, h))
  }

  predicate SlotFacts(cfg: Config, h: Host, v: Dom0) {
    && (h.slot.Some? ==> h.slot.value < 32 && Qrexec.ParseSlot(cfg.he.argv) == Qrexec.Slot(h.slot.value))
    && (h.slot.None? && (!h.pc.Exit? || v.added != []) ==> Qrexec.ParseSlot(cfg.he.argv).NoSlot?)
    && (v.sig.Some? ==> |v.sig.value| == 64)
    && (v.pc.ReadChallenge? ==> v.sig.None?)
    && (4 <= Stage(h.pc) <= 5 || v.added != [] ==> (h.slot.Some? ==> v.sig.Some?))
    && (4 <= Stage(h.pc) <= 5 ==> h.sig == v.sig)
  }

  predicate DomFacts(cfg: Config, h: Host, v: Dom0) {
    && SlotFacts(cfg, h, v)
    && (Stage(h.pc) <= 4 || h.pc.Ready? || h.pc.Ask? || h.pc.HashReply? || h.pc.ReadKeyfile? ==> h.delivered == [])
    && (h.pc.DomResult? || h.pc.DomWait? || h.pc == Exit(Success) || v.added != [] ==> HasSent(h))
    && (h.delivered == [] || HasSent(h))
    && (h.pc.DomWait? || h.pc == Exit(Success) ==> Added(cfg, v))
    && (h.pc == Exit(Success) ==> v.pc == Ended(true))
    && (v.pc.ReadPass? ==> v.pc.n == |Qrexec.Taken(cfg.he.current)|)
    && (v.pc.ReadKey? ==> v.current == Qrexec.Taken(cfg.he.current))
    && (v.pc.ReadChallenge? || v.pc.ReadLength? || v.pc.ReadPass? || v.pc.ReadKey? ==> v.added == [])
    && (v.added == [] || v.added == [RightAddKey(cfg, h)])
    && (v.added != [] ==> h.pc.DomResult? || h.pc.DomWait? || h.pc.Exit?)
    && (v.pc.ReadSlot? || v.pc == Ended(true) || v.killed != [] ==> Added(cfg, v))
    && (v.pc.ReadSlot? ==> v.keyfile == KeyTaken(cfg, h))
    && (!v.pc.Ended? ==> v.killed == [])
    && (v.killed == [] || (SlotTaken(cfg, h) != DO_NOTHING && v.killed == [RightKillSlot(cfg, h)]))
    && (v.pc == Ended(true) ==>
          if v.killed == [] then SlotTaken(cfg, h) == DO_NOTHING
          else cfg.ve.killSlot(KeyTaken(cfg, h), SlotTaken(cfg, h)))
  }

  predicate DomLink(cfg: Config, h: Host, v: Dom0, req: bytes, rsp: bytes) {
    && DomFacts(cfg, h, v)
    && DomAgree(h, v)
    && (v.pc.Ended? || req == ExpectedRequest(cfg, h, v))
    && (h.pc.Exit? || rsp == ExpectedResponse(cfg, h, v))
  }

  lemma DomReadsChallenge(cfg: Config, c: CM.Client, h: Host, v: Dom0, rest: bytes, rsp: bytes)
    requires cfg.Valid()
    requires DomCanAct(v) && Facts(cfg, c, h) && v.pc.ReadChallenge?
    requires DomLink(cfg, h, v, v.got + rest, rsp)
    ensures
      var v' := DomAct(cfg.ve, v);
      DomLink(cfg, h, v', rest, rsp + v'.pend)
  {
    var v' := DomAct(cfg.ve, v);
    if h.pc.DomStatus? {
      Aligned(v.got, rest, HostMachine.ChallengeOf(cfg.p, cfg.he, h), []);
    }
    assert rsp == [] ==> rsp + v'.pend == v'.pend;
  }

  lemma DomReadsLength(cfg: Config, c: CM.Client, h: Host, v: Dom0, rest: bytes, rsp: bytes)
    requires cfg.Valid()
    requires DomCanAct(v) && Facts(cfg, c, h) && v.pc.ReadLength?
    requires DomLink(cfg, h, v, v.got + rest, rsp)
    ensures
      var v' := DomAct(cfg.ve, v);
      DomLink(cfg, h, v', rest, rsp + v'.pend)
  {
    var v' := DomAct(cfg.ve, v);
    assert rsp + v'.pend == rsp;
    Qrexec.Truncation(cfg.he.current, SentKeyfile(h));
    Aligned(v.got, rest, [|cfg.he.current| % 256],
            Qrexec.Taken(cfg.he.current) + (KeyTaken(cfg, h) + Left(cfg, h)));
  }

  lemma DomReadsPass(cfg: Config, c: CM.Client, h: Host, v: Dom0, rest: bytes, rsp: bytes)
    requires cfg.Valid()
    requires DomCanAct(v) && Facts(cfg, c, h) && v.pc.ReadPass?
    requires DomLink(cfg, h, v, v.got + rest, rsp)
    ensures
      var v' := DomAct(cfg.ve, v);
      DomLink(cfg, h, v', rest, rsp + v'.pend)
  {
    var v' := DomAct(cfg.ve, v);
    assert rsp + v'.pend == rsp;
    Aligned(v.got, rest, Qrexec.Taken(cfg.he.current), KeyTaken(cfg, h) + Left(cfg, h));
  }

  lemma DomReadsKey(cfg: Config, c: CM.Client, h: Host, v: Dom0, rest: bytes, rsp: bytes)
    requires cfg.Valid()
    requires DomCanAct(v) && Facts(cfg, c, h) && v.pc.ReadKey?
    requires DomLink(cfg, h, v, v.got + rest, rsp)
    ensures
      var v' := DomAct(cfg.ve, v);
      DomLink(cfg, h, v', rest, rsp + v'.pend)
  {
    var v' := DomAct(cfg.ve, v);
    Aligned(v.got, rest, KeyTaken(cfg, h), Left(cfg, h));
    assert rsp + v'.pend == v'.pend;
  }

  lemma DomReadsSlot(cfg: Config, c: CM.Client, h: Host, v: Dom0, rest: bytes, rsp: bytes)
    requires cfg.Valid()
    requires DomCanAct(v) && Facts(cfg, c, h) && v.pc.ReadSlot?
    requires DomLink(cfg, h, v, v.got + rest, rsp)
    ensures
      var v' := DomAct(cfg.ve, v);
      DomLink(cfg, h, v', rest, rsp + v'.pend)
  {
    var v' := DomAct(cfg.ve, v);
    assert v.got[0] == (v.got + rest)[0] == SlotTaken(cfg, h);
    assert rsp + v'.pend == rsp;
  }

  /** What dom0's program does keeps the link, however long the passphrase is. */
  lemma DomActs(cfg: Config, c: CM.Client, h: Host, v: Dom0, rest: bytes, rsp: bytes)
    requires cfg.Valid()
    requires DomCanAct(v) && Facts(cfg, c, h)
    requires DomLink(cfg, h, v, v.got + rest, rsp)
    ensures
      var v' := DomAct(cfg.ve, v);
      DomLink(cfg, h, v', rest, rsp + v'.pend)
  {
    match v.pc
    case ReadChallenge => DomReadsChallenge(cfg, c, h, v, rest, rsp);
    case ReadLength => DomReadsLength(cfg, c, h, v, rest, rsp);
    case ReadPass(_) => DomReadsPass(cfg, c, h, v, rest, rsp);
    case ReadKey => DomReadsKey(cfg, c, h, v, rest, rsp);
    case _ => DomReadsSlot(cfg, c, h, v, rest, rsp);
  }

  lemma HostReadsDomStatus(cfg: Config, c: CM.Client, h: Host, v: Dom0, req: bytes, rest: bytes)
    requires cfg.Valid() && cfg.he.mode.Qubes? && h.pc.DomStatus?
    requires HostMachine.CanAct(cfg.he, h) && Facts(cfg, c, h)
    requires DomLink(cfg, h, v, req, DomRead(h) + rest)
    ensures
      var h' := HostMachine.Act(cfg.p, cfg.he, h);
      DomLink(cfg, h', v, req + h'.dpend, rest)
  {
    var h' := HostMachine.Act(cfg.p, cfg.he, h);
    var message := DomStatusMessage(v);
    Aligned(h.got, rest, [message[0]], message[1..]);
    assert req + h'.dpend == req;
  }

  lemma HostReadsDomSig(cfg: Config, c: CM.Client, h: Host, v: Dom0, req: bytes, rest: bytes)
    requires cfg.Valid() && cfg.he.mode.Qubes? && h.pc.DomSig?
    requires HostMachine.CanAct(cfg.he, h) && Facts(cfg, c, h)
    requires DomLink(cfg, h, v, req, DomRead(h) + rest)
    ensures
      var h' := HostMachine.Act(cfg.p, cfg.he, h);
      DomLink(cfg, h', v, req + h'.dpend, rest)
  {
    var h' := HostMachine.Act(cfg.p, cfg.he, h);
    Aligned(h.got, rest, v.sig.value, []);
    assert req + h'.dpend == req;
  }

  lemma HostSendsKeyfile(cfg: Config, c: CM.Client, h: Host, v: Dom0, req: bytes, rest: bytes)
    requires cfg.Valid() && cfg.he.mode.Qubes? && h.pc.ReadKeyfile?
    requires HostMachine.CanAct(cfg.he, h) && Facts(cfg, c, h)
    requires DomLink(cfg, h, v, req, DomRead(h) + rest)
    ensures
      var h' := HostMachine.Act(cfg.p, cfg.he, h);
      DomLink(cfg, h', v, req + h'.dpend, rest)
  {
    var h' := HostMachine.Act(cfg.p, cfg.he, h);
    assert DomRead(h) + rest == rest;
    assert req + h'.dpend == Qrexec.Encode(cfg.he.current, SentKeyfile(h'));
  }

  lemma HostReadsDomResult(cfg: Config, c: CM.Client, h: Host, v: Dom0, req: bytes, rest: bytes)
    requires cfg.Valid() && cfg.he.mode.Qubes? && h.pc.DomResult?
    requires HostMachine.CanAct(cfg.he, h) && Facts(cfg, c, h)
    requires DomLink(cfg, h, v, req, DomRead(h) + rest)
    ensures
      var h' := HostMachine.Act(cfg.p, cfg.he, h);
      DomLink(cfg, h', v, req + h'.dpend, rest)
  {
    var h' := HostMachine.Act(cfg.p, cfg.he, h);
    Aligned(h.got, rest, [DECRYPTION_SUCCESS], []);
    assert (Left(cfg, h) + []) + h'.dpend == Left(cfg, h) + h'.dpend;
  }

  lemma HostBuildsChallenge(cfg: Config, c: CM.Client, h: Host, v: Dom0, req: bytes, rest: bytes)
    requires cfg.Valid() && cfg.he.mode.Qubes? && h.pc.ReadTkeyPub?
    requires HostMachine.CanAct(cfg.he, h) && Facts(cfg, c, h)
    requires DomLink(cfg, h, v, req, DomRead(h) + rest)
    ensures
      var h' := HostMachine.Act(cfg.p, cfg.he, h);
      DomLink(cfg, h', v, req + h'.dpend, rest)
  {
    var h' := HostMachine.Act(cfg.p, cfg.he, h);
    assert DomRead(h) + rest == rest;
    assert req + h'.dpend == h'.dpend;
  }

  lemma HostTalksToTkey(cfg: Config, h: Host, h': Host, v: Dom0, req: bytes, rest: bytes)
    requires cfg.he.mode.Qubes? && Leads(h, h') && Keeps(h, h')
    requires !FromDom(h) && !h.pc.ReadTkeyPub? && !h.pc.ReadKeyfile?
    requires h'.pc.Exit? ==> h'.pc == Exit(Error)
    requires h.pc.HashReply? ==> !h'.pc.Ready?
    requires DomLink(cfg, h, v, req, DomRead(h) + rest)
    ensures DomLink(cfg, h', v, req + h'.dpend, rest)
  {
    assert DomRead(h) + rest == rest;
    assert req + h'.dpend == req;
  }

  /** A Qubes host leaves only by failing, short of a keyfile, and has one try. */
  lemma QubesHostErrs(cfg: Config, h: Host)
    requires HostMachine.CanAct(cfg.he, h) && cfg.he.mode.Qubes? && !h.pc.ReadKeyfile?
    ensures
      var h' := HostMachine.Act(cfg.p, cfg.he, h);
      && (h'.pc.Exit? ==> h'.pc == Exit(Error))
      && (h.pc.HashReply? ==> !h'.pc.Ready?)
  {
  }

  lemma HostTalksOn(cfg: Config, h: Host, v: Dom0, req: bytes, rest: bytes)
    requires HostMachine.CanAct(cfg.he, h) && cfg.he.mode.Qubes?
    requires !FromDom(h) && !h.pc.ReadTkeyPub? && !h.pc.ReadKeyfile?
    requires DomLink(cfg, h, v, req, DomRead(h) + rest)
    ensures
      var h' := HostMachine.Act(cfg.p, cfg.he, h);
      DomLink(cfg, h', v, req + h'.dpend, rest)
  {
    ActLeads(cfg.p, cfg.he, h);
    ActKeeps(cfg.p, cfg.he, h);
    QubesHostErrs(cfg, h);
    HostTalksToTkey(cfg, h, HostMachine.Act(cfg.p, cfg.he, h), v, req, rest);
  }

  /** What the host does keeps the link. */
  lemma HostActsOnDom(cfg: Config, c: CM.Client, h: Host, v: Dom0, req: bytes, rest: bytes)
    requires cfg.Valid() && cfg.he.mode.Qubes?
    requires HostMachine.CanAct(cfg.he, h) && Facts(cfg, c, h)
    requires DomLink(cfg, h, v, req, DomRead(h) + rest)
    ensures
      var h' := HostMachine.Act(cfg.p, cfg.he, h);
      DomLink(cfg, h', v, req + h'.dpend, rest)
  {
    match h.pc
    case ReadTkeyPub => HostBuildsChallenge(cfg, c, h, v, req, rest);
    case DomStatus => HostReadsDomStatus(cfg, c, h, v, req, rest);
    case DomSig => HostReadsDomSig(cfg, c, h, v, req, rest);
    case ReadKeyfile => HostSendsKeyfile(cfg, c, h, v, req, rest);
    case DomResult => HostReadsDomResult(cfg, c, h, v, req, rest);
    case _ => HostTalksOn(cfg, h, v, req, rest);
  }

  /** A program that has ended leaves whatever it had not read. */
  lemma EndsAreSeen(cfg: Config, h: Host, v: Dom0, req: bytes, rsp: bytes, left: bytes)
    requires DomLink(cfg, h, v, req, rsp)
    ensures FromDom(h) && DomGone(v) && |rsp| < Need(h) ==> DomLink(cfg, h.(pc := Exit(Error), got := []), v, req, left)
    ensures h.pc.DomWait? && DomGone(v) ==> DomLink(cfg, SeeExit(h, v.pc.ok), v, req, rsp)
    ensures DomReads(v) && HostGone(h) ==> DomLink(cfg, h, v.(pc := Ended(false), got := []), left, rsp)
  {
  }
}
