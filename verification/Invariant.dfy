/** The joint invariant of the three programs, and that every step of every schedule keeps it. */
module Invariant {
  import opened Bytes
  import opened System
  import opened Framing
  import opened DomFraming
  import opened Records
  import CM = ClientMachine
  import HM = HostMachine
  import DM = Dom0Machine

  /** In flight from the TKey to the host: partly read, on the wire, partly written. */
  function InUp(s: System): bytes
    requires s.Valid()
  {
    HM.TkeyRead(s.h) + (s.up.Unread() + s.c.pend)
  }

  function InDown(s: System): bytes
    requires s.Valid()
  {
    s.c.got + (s.down.Unread() + s.h.pend)
  }

  function InRequest(s: System): bytes
    requires s.Valid()
  {
    s.v.got + (s.req.Unread() + s.h.dpend)
  }

  function InResponse(s: System): bytes
    requires s.Valid()
  {
    HM.DomRead(s.h) + (s.rsp.Unread() + s.v.pend)
  }

  predicate ReadsBounded(s: System) {
    && |s.c.got| <= CM.Need(s.c)
    && |s.h.got| <= HM.Need(s.h)
    && |s.v.got| <= DM.DomNeed(s.v)
  }

  ghost predicate Inv(cfg: Config, s: System) {
    && s.Valid()
    && ReadsBounded(s)
    && Link(cfg, s.c, s.h, InUp(s), InDown(s))
    && Recorded(cfg, s.c, s.h)
    && (cfg.he.mode.Qubes? ==> DomLink(cfg, s.h, s.v, InRequest(s), InResponse(s)))
  }

  lemma InitLink(cfg: Config)
    ensures Link(cfg, CM.INIT_CLIENT, HM.InitHost(cfg.he), [], [])
  {
  }

  lemma InitRecorded(cfg: Config)
    ensures Recorded(cfg, CM.INIT_CLIENT, HM.InitHost(cfg.he))
  {
  }

  lemma InitDomLink(cfg: Config)
    requires cfg.he.mode.Qubes?
    ensures DomLink(cfg, HM.InitHost(cfg.he), DM.INIT_DOM0, [], [])
  {
  }

  lemma InitInv(cfg: Config)
    requires cfg.Valid()
    ensures Inv(cfg, Init(cfg))
  {
    InitLink(cfg);
    InitRecorded(cfg);
    if cfg.he.mode.Qubes? {
      InitDomLink(cfg);
    }
  }

  /** Moving one byte along leaves everything in flight as it was. */
  lemma Moved(pend: bytes, wire: Stream, got: bytes)
    requires wire.Valid()
    ensures pend != [] ==>
              wire.Put(pend[0]).Valid()
              && got + (wire.Put(pend[0]).Unread() + pend[1..]) == got + (wire.Unread() + pend)
    ensures wire.taken < |wire.log| ==>
              wire.Take().Valid()
              && (got + [wire.log[wire.taken]]) + (wire.Take().Unread() + pend) == got + (wire.Unread() + pend)
  {
    if pend != [] {
      PutUnread(wire, pend[0]);
      assert pend == [pend[0]] + pend[1..];
      assert (wire.Unread() + [pend[0]]) + pend[1..] == wire.Unread() + pend;
    }
    if wire.taken < |wire.log| {
      TakeUnread(wire);
      var b := [wire.log[wire.taken]];
      assert (got + b) + (wire.Take().Unread() + pend) == got + ((b + wire.Take().Unread()) + pend);
    }
  }

  predicate IsMove(ev: Event) {
    || ev.ClientSends? || ev.ClientReceives? || ev.HostSends? || ev.HostReceives?
    || ev.HostSendsDom? || ev.HostReceivesDom? || ev.DomSends? || ev.DomReceives?
  }

  /** Two states that differ only in how far bytes in flight have got. */
  predicate SameButMoved(s: System, t: System)
    requires s.Valid() && t.Valid()
  {
    && t.c == s.c.(pend := t.c.pend, got := t.c.got)
    && t.h == s.h.(pend := t.h.pend, dpend := t.h.dpend, got := t.h.got)
    && t.v == s.v.(pend := t.v.pend, got := t.v.got)
    && InUp(t) == InUp(s) && InDown(t) == InDown(s)
    && InRequest(t) == InRequest(s) && InResponse(t) == InResponse(s)
  }

  lemma UpMoves(cfg: Config, s: System, ev: Event)
    requires s.Valid() && (ev.ClientSends? || ev.HostReceives?) && Enabled(cfg, s, ev) && ReadsBounded(s)
    ensures
      var t := Next(cfg, s, ev);
      t.Valid() && ReadsBounded(t) && SameButMoved(s, t)
  {
    Moved(s.c.pend, s.up, HM.TkeyRead(s.h));
  }

  lemma DownMoves(cfg: Config, s: System, ev: Event)
    requires s.Valid() && (ev.HostSends? || ev.ClientReceives?) && Enabled(cfg, s, ev) && ReadsBounded(s)
    ensures
      var t := Next(cfg, s, ev);
      t.Valid() && ReadsBounded(t) && SameButMoved(s, t)
  {
    Moved(s.h.pend, s.down, s.c.got);
  }

  lemma RequestMoves(cfg: Config, s: System, ev: Event)
    requires s.Valid() && (ev.HostSendsDom? || ev.DomReceives?) && Enabled(cfg, s, ev) && ReadsBounded(s)
    ensures
      var t := Next(cfg, s, ev);
      t.Valid() && ReadsBounded(t) && SameButMoved(s, t)
  {
    Moved(s.h.dpend, s.req, s.v.got);
  }

  lemma ResponseMoves(cfg: Config, s: System, ev: Event)
    requires s.Valid() && (ev.DomSends? || ev.HostReceivesDom?) && Enabled(cfg, s, ev) && ReadsBounded(s)
    ensures
      var t := Next(cfg, s, ev);
      t.Valid() && ReadsBounded(t) && SameButMoved(s, t)
  {
    Moved(s.v.pend, s.rsp, HM.DomRead(s.h));
  }

  lemma MoveKeeps(cfg: Config, s: System, ev: Event)
    requires s.Valid() && IsMove(ev) && Enabled(cfg, s, ev) && ReadsBounded(s)
    ensures
      var t := Next(cfg, s, ev);
      t.Valid() && ReadsBounded(t) && SameButMoved(s, t)
  {
    if ev.ClientSends? || ev.HostReceives? {
      UpMoves(cfg, s, ev);
    } else if ev.HostSends? || ev.ClientReceives? {
      DownMoves(cfg, s, ev);
    } else if ev.HostSendsDom? || ev.DomReceives? {
      RequestMoves(cfg, s, ev);
    } else {
      ResponseMoves(cfg, s, ev);
    }
  }

  lemma SameInv(cfg: Config, s: System, t: System)
    requires Inv(cfg, s) && t.Valid() && ReadsBounded(t) && SameButMoved(s, t)
    ensures Inv(cfg, t)
  {
    SameLink(cfg, s, t);
    SameRecorded(cfg, s, t);
    if cfg.he.mode.Qubes? {
      SameDomLink(cfg, s, t);
    }
  }

  lemma SameLink(cfg: Config, s: System, t: System)
    requires s.Valid() && t.Valid() && SameButMoved(s, t)
    requires Link(cfg, s.c, s.h, InUp(s), InDown(s))
    ensures Link(cfg, t.c, t.h, InUp(t), InDown(t))
  {
    SameFacts(cfg, s.c, s.h, t.c, t.h);
  }

  lemma SameFacts(cfg: Config, c: CM.Client, h: HM.Host, c': CM.Client, h': HM.Host)
    requires c' == c.(pend := c'.pend, got := c'.got)
    requires h' == h.(pend := h'.pend, dpend := h'.dpend, got := h'.got)
    ensures Facts(cfg, c, h) <==> Facts(cfg, c', h')
    ensures CM.Safe(cfg.ce, c) <==> CM.Safe(cfg.ce, c')
  {
  }

  lemma SameRecorded(cfg: Config, s: System, t: System)
    requires s.Valid() && t.Valid() && SameButMoved(s, t)
    requires Recorded(cfg, s.c, s.h)
    ensures Recorded(cfg, t.c, t.h)
  {
  }

  lemma SameDomLink(cfg: Config, s: System, t: System)
    requires s.Valid() && t.Valid() && SameButMoved(s, t)
    requires DomLink(cfg, s.h, s.v, InRequest(s), InResponse(s))
    ensures DomLink(cfg, t.h, t.v, InRequest(t), InResponse(t))
  {
    SameDomFacts(cfg, s.h, s.v, t.h, t.v);
  }

  lemma SameDomFacts(cfg: Config, h: HM.Host, v: DM.Dom0, h': HM.Host, v': DM.Dom0)
    requires h' == h.(pend := h'.pend, dpend := h'.dpend, got := h'.got)
    requires v' == v.(pend := v'.pend, got := v'.got)
    ensures DomFacts(cfg, h, v) <==> DomFacts(cfg, h', v')
  {
  }

  /** Bytes read by an action have left, bytes written by it are on their way. */
  lemma ClientActMoves(cfg: Config, s: System)
    requires s.Valid() && CM.CanAct(s.c) && ReadsBounded(s)
    ensures
      var t := Next(cfg, s, ClientActs);
      && t.Valid() && ReadsBounded(t)
      && InUp(t) == InUp(s) + t.c.pend
      && InDown(t) == s.down.Unread() + s.h.pend
  {
    var t := Next(cfg, s, ClientActs);
    assert t.c.got == [];
  }

  lemma HostActMoves(cfg: Config, s: System)
    requires s.Valid() && HM.CanAct(cfg.he, s.h) && ReadsBounded(s)
    ensures
      var t := Next(cfg, s, HostActs);
      && t.Valid() && ReadsBounded(t)
      && InUp(t) == s.up.Unread() + s.c.pend
      && InDown(t) == InDown(s) + t.h.pend
      && InRequest(t) == InRequest(s) + t.h.dpend
      && InResponse(t) == s.rsp.Unread() + s.v.pend
  {
    var t := Next(cfg, s, HostActs);
    assert t.h.got == [];
  }

  lemma DomActMoves(cfg: Config, s: System)
    requires s.Valid() && DM.DomCanAct(s.v) && ReadsBounded(s)
    ensures
      var t := Next(cfg, s, DomActs);
      && t.Valid() && ReadsBounded(t)
      && InRequest(t) == s.req.Unread() + s.h.dpend
      && InResponse(t) == InResponse(s) + t.v.pend
  {
    var t := Next(cfg, s, DomActs);
    assert t.v.got == [];
  }

  lemma ClientActsInv(cfg: Config, s: System)
    requires cfg.Valid() && Inv(cfg, s) && CM.CanAct(s.c)
    ensures Inv(cfg, Next(cfg, s, ClientActs))
  {
    ClientActMoves(cfg, s);
    ClientActsLinked(cfg, s.c, s.h, InUp(s), s.down.Unread() + s.h.pend);
  }

  lemma ClientActsLinked(cfg: Config, c: CM.Client, h: HM.Host, up: bytes, rest: bytes)
    requires cfg.Valid() && CM.CanAct(c)
    requires Link(cfg, c, h, up, c.got + rest) && Recorded(cfg, c, h)
    ensures
      var c' := CM.Act(cfg.p, cfg.ce, c);
      Link(cfg, c', h, up + c'.pend, rest) && Recorded(cfg, c', h)
  {
    Framing.ClientActs(cfg, c, h, up, rest);
    ClientActIsRecorded(cfg, c, h, up, rest);
  }

  lemma HostActsLinked(cfg: Config, c: CM.Client, h: HM.Host, rest: bytes, down: bytes)
    requires cfg.Valid() && HM.CanAct(cfg.he, h)
    requires Link(cfg, c, h, HM.TkeyRead(h) + rest, down) && Recorded(cfg, c, h)
    ensures
      var h' := HM.Act(cfg.p, cfg.he, h);
      Link(cfg, c, h', rest, down + h'.pend) && Recorded(cfg, c, h')
  {
    Framing.HostActs(cfg, c, h, rest, down);
    HostActIsRecorded(cfg, c, h, rest, down);
  }

  lemma HostActsInv(cfg: Config, s: System)
    requires cfg.Valid() && Inv(cfg, s) && HM.CanAct(cfg.he, s.h)
    ensures Inv(cfg, Next(cfg, s, HostActs))
  {
    HostActMoves(cfg, s);
    HostActsTkeySide(cfg, s);
    if cfg.he.mode.Qubes? {
      HostActsDomSide(cfg, s);
    }
  }

  lemma HostActsTkeySide(cfg: Config, s: System)
    requires cfg.Valid() && HM.CanAct(cfg.he, s.h)
    requires s.Valid() && ReadsBounded(s)
    requires Link(cfg, s.c, s.h, InUp(s), InDown(s)) && Recorded(cfg, s.c, s.h)
    ensures
      var t := Next(cfg, s, HostActs);
      t.Valid() && Link(cfg, t.c, t.h, InUp(t), InDown(t)) && Recorded(cfg, t.c, t.h)
  {
    var rest, down := s.up.Unread() + s.c.pend, InDown(s);
    HostActsLinked(cfg, s.c, s.h, rest, down);
    HostActMoves(cfg, s);
    SidesOf(cfg, s.c, HM.Act(cfg.p, cfg.he, s.h), rest, down, Next(cfg, s, HostActs));
  }

  /** What is linked in pieces is linked in the state they make up. */
  lemma SidesOf(cfg: Config, c: CM.Client, h: HM.Host, up: bytes, down: bytes, t: System)
    requires t.Valid() && t.c == c && t.h == h && InUp(t) == up && InDown(t) == down + h.pend
    requires Link(cfg, c, h, up, down + h.pend) && Recorded(cfg, c, h)
    ensures Link(cfg, t.c, t.h, InUp(t), InDown(t)) && Recorded(cfg, t.c, t.h)
  {
  }

  lemma HostActsDomSide(cfg: Config, s: System)
    requires cfg.Valid() && HM.CanAct(cfg.he, s.h) && cfg.he.mode.Qubes?
    requires s.Valid() && ReadsBounded(s) && Facts(cfg, s.c, s.h)
    requires DomLink(cfg, s.h, s.v, InRequest(s), InResponse(s))
    ensures
      var t := Next(cfg, s, HostActs);
      t.Valid() && DomLink(cfg, t.h, t.v, InRequest(t), InResponse(t))
  {
    HostActMoves(cfg, s);
    HostActsOnDom(cfg, s.c, s.h, s.v, InRequest(s), s.rsp.Unread() + s.v.pend);
  }

  lemma DomActsInv(cfg: Config, s: System)
    requires cfg.Valid() && Inv(cfg, s) && DM.DomCanAct(s.v)
    ensures Inv(cfg, Next(cfg, s, DomActs))
  {
    DomActMoves(cfg, s);
    if cfg.he.mode.Qubes? {
      DomFraming.DomActs(cfg, s.c, s.h, s.v, s.req.Unread() + s.h.dpend, InResponse(s));
    }
  }

  lemma EndRecorded(cfg: Config, c: CM.Client, h: HM.Host, ok: bool)
    requires Recorded(cfg, c, h) && cfg.he.mode.Qubes?
    ensures Recorded(cfg, c, h.(pc := HM.Exit(HM.Error), got := []))
    ensures Recorded(cfg, c, HM.SeeExit(h, ok))
  {
    EndDeliveries(cfg, h, h.(pc := HM.Exit(HM.Error), got := []));
    EndDeliveries(cfg, h, HM.SeeExit(h, ok));
  }

  lemma EndDeliveries(cfg: Config, h: HM.Host, h': HM.Host)
    requires DeliveriesRight(cfg, h) && h'.pc.Exit?
    requires h'.delivered == h.delivered && h'.asked == h.asked && h'.tries == h.tries
    ensures DeliveriesRight(cfg, h')
  {
  }

  lemma HostSeesEndMoves(cfg: Config, s: System, ev: Event)
    requires Enabled(cfg, s, ev) && (ev.HostSeesEof? || ev.HostSeesExit?)
    requires s.Valid() && ReadsBounded(s) && s.h.pend == [] && (ev.HostSeesExit? ==> s.h.got == [])
    ensures
      var t := Next(cfg, s, ev);
      && t.Valid() && ReadsBounded(t)
      && InUp(t) == InUp(s) && InDown(t) == InDown(s) + t.h.pend
  {
  }

  lemma HostSeesEndInv(cfg: Config, s: System, ev: Event)
    requires cfg.Valid() && Enabled(cfg, s, ev) && (ev.HostSeesEof? || ev.HostSeesExit?)
    requires s.Valid() && ReadsBounded(s)
    requires Link(cfg, s.c, s.h, InUp(s), InDown(s)) && Recorded(cfg, s.c, s.h)
    ensures
      var t := Next(cfg, s, ev);
      && t.Valid() && ReadsBounded(t)
      && Link(cfg, t.c, t.h, InUp(t), InDown(t)) && Recorded(cfg, t.c, t.h)
  {
    assert s.h.pend == [];
    var ok := s.v.pc.ok;
    HostSeesEndMoves(cfg, s, ev);
    if ev.HostSeesEof? {
      Framing.HostSeesEof(cfg, s.c, s.h, InUp(s), InDown(s));
    } else {
      Framing.HostSeesExit(cfg, s.c, s.h, InUp(s), InDown(s), ok);
    }
    EndRecorded(cfg, s.c, s.h, ok);
    assert InDown(s) + [] == InDown(s);
  }

  lemma DomEndInv(cfg: Config, s: System, ev: Event)
    requires Enabled(cfg, s, ev) && (ev.HostSeesEof? || ev.HostSeesExit? || ev.DomSeesEof?)
    requires s.Valid() && DomLink(cfg, s.h, s.v, InRequest(s), InResponse(s))
    ensures
      var t := Next(cfg, s, ev);
      t.Valid() && DomLink(cfg, t.h, t.v, InRequest(t), InResponse(t))
  {
    var t := Next(cfg, s, ev);
    assert ev.HostSeesEof? ==> InResponse(s) == s.h.got;
    EndsAreSeen(cfg, s.h, s.v, InRequest(s), InResponse(s),
                if ev.DomSeesEof? then InRequest(t) else InResponse(t));
  }

  lemma EndsInv(cfg: Config, s: System, ev: Event)
    requires cfg.Valid() && Inv(cfg, s) && Enabled(cfg, s, ev)
    requires ev.HostSeesEof? || ev.HostSeesExit? || ev.DomSeesEof?
    ensures Inv(cfg, Next(cfg, s, ev))
  {
    if !ev.DomSeesEof? {
      HostSeesEndInv(cfg, s, ev);
    }
    if cfg.he.mode.Qubes? {
      DomEndInv(cfg, s, ev);
    }
  }

  lemma StepInv(cfg: Config, s: System, ev: Event)
    requires cfg.Valid() && Inv(cfg, s)
    ensures Inv(cfg, Step(cfg, s, ev))
  {
    if Enabled(cfg, s, ev) {
      match ev
      case ClientActs => ClientActsInv(cfg, s);
      case HostActs => HostActsInv(cfg, s);
      case DomActs => DomActsInv(cfg, s);
      case HostSeesEof => EndsInv(cfg, s, ev);
      case HostSeesExit => EndsInv(cfg, s, ev);
      case DomSeesEof => EndsInv(cfg, s, ev);
      case _ =>
        MoveKeeps(cfg, s, ev);
        SameInv(cfg, s, Next(cfg, s, ev));
    }
  }

  /** After every schedule, the invariant holds. */
  lemma {:induction false} InvAlways(cfg: Config, schedule: seq<Event>)
    requires cfg.Valid()
    ensures Inv(cfg, After(cfg, schedule))
  {
    if schedule == [] {
      InitInv(cfg);
    } else {
      var earlier := schedule[..|schedule| - 1];
      InvAlways(cfg, earlier);
      StepInv(cfg, After(cfg, earlier), schedule[|schedule| - 1]);
    }
  }
}
