/** The three programs joined by four byte streams.

    A stream is the log of everything written to it and how much of that has been read.
    Every single byte written or read is a step of its own, so a schedule may interleave the
    programs in the middle of any message. */
module System {
  import opened Bytes
  import opened Primitives
  import CM = ClientMachine
  import HM = HostMachine
  import DM = Dom0Machine

  datatype Config = Config(p: Primitives, ce: CM.ClientEnv, he: HM.HostEnv, ve: DM.Dom0Env) {
    ghost predicate Valid() {
      p.Valid() && ce.Valid() && he.Valid() && ve.Valid()
    }
  }

  datatype Stream = Stream(log: bytes, taken: nat) {
    predicate Valid() {
      taken <= |log|
    }

    function Unread(): bytes
      requires Valid()
    {
      log[taken..]
    }

    function Put(b: byte): Stream {
      Stream(log + [b], taken)
    }

    function Take(): Stream {
      Stream(log, taken + 1)
    }
  }

  const EMPTY_STREAM := Stream([], 0)

  lemma PutUnread(s: Stream, b: byte)
    requires s.Valid()
    ensures s.Put(b).Valid() && s.Put(b).Unread() == s.Unread() + [b]
  {
  }

  lemma TakeUnread(s: Stream)
    requires s.Valid() && s.taken < |s.log|
    ensures s.Take().Valid() && s.Unread() == [s.log[s.taken]] + s.Take().Unread()
  {
  }

  /** `up` and `down` join TKey and host; `req` and `rsp` join host and dom0. */
  datatype System = System(
    c: CM.Client, h: HM.Host, v: DM.Dom0,
    up: Stream, down: Stream, req: Stream, rsp: Stream)
  {
    predicate Valid() {
      up.Valid() && down.Valid() && req.Valid() && rsp.Valid()
    }
  }

  function Init(cfg: Config): System {
    System(CM.INIT_CLIENT, HM.InitHost(cfg.he), DM.INIT_DOM0, EMPTY_STREAM, EMPTY_STREAM, EMPTY_STREAM, EMPTY_STREAM)
  }

  datatype Event =
    | ClientSends | ClientReceives | ClientActs
    | HostSends | HostReceives | HostActs
    | HostSendsDom | HostReceivesDom | HostSeesEof | HostSeesExit
    | DomSends | DomReceives | DomActs | DomSeesEof

  predicate ClientReads(c: CM.Client) {
    !CM.Halted(c) && c.pend == [] && |c.got| < CM.Need(c)
  }

  predicate HostReads(h: HM.Host) {
    h.pend == [] && h.dpend == [] && |h.got| < HM.Need(h)
  }

  predicate DomReads(v: DM.Dom0) {
    v.pend == [] && |v.got| < DM.DomNeed(v)
  }

  /** A program whose end the other side of a pipe can see. */
  predicate HostGone(h: HM.Host) {
    h.pc.Exit? && h.pend == [] && h.dpend == []
  }

  predicate DomGone(v: DM.Dom0) {
    v.pc.Ended? && v.pend == []
  }

  predicate Enabled(cfg: Config, s: System, ev: Event) {
    match ev
    case ClientSends => s.c.pend != []
    case ClientReceives => ClientReads(s.c) && s.down.taken < |s.down.log|
    case ClientActs => CM.CanAct(s.c)
    case HostSends => s.h.pend != []
    case HostReceives => HostReads(s.h) && !HM.FromDom(s.h) && s.up.taken < |s.up.log|
    case HostActs => HM.CanAct(cfg.he, s.h)
    case HostSendsDom => s.h.dpend != []
    case HostReceivesDom => HostReads(s.h) && HM.FromDom(s.h) && s.rsp.taken < |s.rsp.log|
    case HostSeesEof => HostReads(s.h) && HM.FromDom(s.h) && s.rsp.taken == |s.rsp.log| && DomGone(s.v)
    case HostSeesExit => s.h.pc.DomWait? && s.h.pend == [] && s.h.dpend == [] && DomGone(s.v)
    case DomSends => s.v.pend != []
    case DomReceives => DomReads(s.v) && s.req.taken < |s.req.log|
    case DomActs => DM.DomCanAct(s.v)
    case DomSeesEof => DomReads(s.v) && s.req.taken == |s.req.log| && HostGone(s.h)
  }

  function Next(cfg: Config, s: System, ev: Event): System
    requires s.Valid() && Enabled(cfg, s, ev)
  {
    match ev
    case ClientSends => s.(c := s.c.(pend := s.c.pend[1..]), up := s.up.Put(s.c.pend[0]))
    case ClientReceives => s.(c := s.c.(got := s.c.got + [s.down.log[s.down.taken]]), down := s.down.Take())
    case ClientActs => s.(c := CM.Act(cfg.p, cfg.ce, s.c))
    case HostSends => s.(h := s.h.(pend := s.h.pend[1..]), down := s.down.Put(s.h.pend[0]))
    case HostReceives => s.(h := s.h.(got := s.h.got + [s.up.log[s.up.taken]]), up := s.up.Take())
    case HostActs => s.(h := HM.Act(cfg.p, cfg.he, s.h))
    case HostSendsDom => s.(h := s.h.(dpend := s.h.dpend[1..]), req := s.req.Put(s.h.dpend[0]))
    case HostReceivesDom => s.(h := s.h.(got := s.h.got + [s.rsp.log[s.rsp.taken]]), rsp := s.rsp.Take())
    case HostSeesEof => s.(h := s.h.(pc := HM.Exit(HM.Error), got := []))
    case HostSeesExit => s.(h := HM.SeeExit(s.h, s.v.pc.ok))
    case DomSends => s.(v := s.v.(pend := s.v.pend[1..]), rsp := s.rsp.Put(s.v.pend[0]))
    case DomReceives => s.(v := s.v.(got := s.v.got + [s.req.log[s.req.taken]]), req := s.req.Take())
    case DomActs => s.(v := DM.DomAct(cfg.ve, s.v))
    case DomSeesEof => s.(v := s.v.(pc := DM.Ended(false), got := []))
  }

  /** One scheduler choice; a choice that is not possible changes nothing. */
  function Step(cfg: Config, s: System, ev: Event): (r: System)
    requires s.Valid()
    ensures r.Valid()
  {
    if Enabled(cfg, s, ev) then Next(cfg, s, ev) else s
  }

  /** The state after a schedule.  The schedules are all the runs there are. */
  function After(cfg: Config, schedule: seq<Event>): (s: System)
    ensures s.Valid()
  {
    if schedule == [] then Init(cfg)
    else Step(cfg, After(cfg, schedule[..|schedule| - 1]), schedule[|schedule| - 1])
  }

  predicate Stuck(cfg: Config, s: System) {
    forall ev :: !Enabled(cfg, s, ev)
  }
}
