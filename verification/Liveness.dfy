/** Every schedule has finitely many real steps, and what the programs look like when no
    further step is possible. */
module Liveness {
  import opened Bytes
  import opened System
  import opened Framing
  import opened DomFraming
  import opened Records
  import opened Invariant
  import CM = ClientMachine
  import HM = HostMachine
  import DM = Dom0Machine

  /** More than twice the longest message that one action writes. */
  function Weight(cfg: Config): nat {
    400 + 2 * |cfg.he.current|
  }

  function Times(w: nat, n: nat): nat {
    if n == 0 then 0 else w + Times(w, n - 1)
  }

  /** Falls on every step: actions left, then bytes to write, then bytes to read. */
  function Work(cfg: Config, s: System): nat
    requires s.Valid()
  {
    Times(Weight(cfg), CM.Rank(s.c) + HM.Rank(cfg.he, s.h) + DM.DomRank(s.v))
    + 2 * (|s.c.pend| + |s.h.pend| + |s.h.dpend| + |s.v.pend|)
    + |s.up.Unread()| + |s.down.Unread()| + |s.req.Unread()| + |s.rsp.Unread()|
  }

  lemma {:induction false} Multiples(w: nat, a: nat, b: nat)
    requires b < a
    ensures Times(w, b) + w <= Times(w, a)
  {
    if b < a - 1 {
      Multiples(w, a - 1, b);
    }
  }

  lemma ClientWorks(cfg: Config, s: System)
    requires cfg.Valid() && s.Valid() && CM.CanAct(s.c)
    ensures Work(cfg, Next(cfg, s, ClientActs)) < Work(cfg, s)
  {
    var t := Next(cfg, s, ClientActs);
    CM.RankFalls(cfg.p, cfg.ce, s.c);
    assert |t.c.pend| <= 76;
    Multiples(Weight(cfg),
              CM.Rank(s.c) + HM.Rank(cfg.he, s.h) + DM.DomRank(s.v),
              CM.Rank(t.c) + HM.Rank(cfg.he, t.h) + DM.DomRank(t.v));
  }

  lemma HostMessageLengths(cfg: Config, c: CM.Client, h: HM.Host)
    requires cfg.Valid() && HM.CanAct(cfg.he, h) && Facts(cfg, c, h)
    ensures
      var h' := HM.Act(cfg.p, cfg.he, h);
      |h'.pend| <= 65 && |h'.dpend| <= 108 + |cfg.he.current| && (h'.pend == [] || h'.dpend == [])
  {
    if h.pc.ReadKeyfile? {
      HM.ActReadsKeyfile(cfg.p, cfg.he, h);
      assert h.told == [];
    } else {
      ShortMessages(cfg, c, h);
    }
  }

  lemma ShortMessages(cfg: Config, c: CM.Client, h: HM.Host)
    requires cfg.Valid() && HM.CanAct(cfg.he, h) && Facts(cfg, c, h) && !h.pc.ReadKeyfile?
    ensures
      var h' := HM.Act(cfg.p, cfg.he, h);
      |h'.pend| <= 65 && |h'.dpend| <= 108 && (h'.pend == [] || h'.dpend == [])
  {
    HM.ActKeeps(cfg.p, cfg.he, h);
  }

  lemma HostWorks(cfg: Config, s: System)
    requires cfg.Valid() && Inv(cfg, s) && HM.CanAct(cfg.he, s.h)
    ensures Work(cfg, Next(cfg, s, HostActs)) < Work(cfg, s)
  {
    HM.RankFalls(cfg.p, cfg.he, s.h);
    HostMessageLengths(cfg, s.c, s.h);
    HostAdvances(cfg, s, HM.Act(cfg.p, cfg.he, s.h));
  }

  lemma HostAdvances(cfg: Config, s: System, h: HM.Host)
    requires s.Valid() && HM.Rank(cfg.he, h) < HM.Rank(cfg.he, s.h)
    requires |h.pend| <= 65 && |h.dpend| <= 108 + |cfg.he.current|
    ensures Work(cfg, s.(h := h)) < Work(cfg, s)
  {
    Multiples(Weight(cfg),
              CM.Rank(s.c) + HM.Rank(cfg.he, s.h) + DM.DomRank(s.v),
              CM.Rank(s.c) + HM.Rank(cfg.he, h) + DM.DomRank(s.v));
  }

  lemma DomWorks(cfg: Config, s: System)
    requires cfg.Valid() && s.Valid() && Enabled(cfg, s, DomActs)
    ensures Work(cfg, Next(cfg, s, DomActs)) < Work(cfg, s)
  {
    var t := Next(cfg, s, DomActs);
    assert |t.v.pend| <= |s.v.pend| + 65;
    Multiples(Weight(cfg),
              CM.Rank(s.c) + HM.Rank(cfg.he, s.h) + DM.DomRank(s.v),
              CM.Rank(t.c) + HM.Rank(cfg.he, t.h) + DM.DomRank(t.v));
  }

  /** The end of a program is seen by another. */
  lemma EndsWork(cfg: Config, s: System, ev: Event)
    requires s.Valid() && Enabled(cfg, s, ev)
    requires ev.HostSeesEof? || ev.HostSeesExit? || ev.DomSeesEof?
    ensures Work(cfg, Next(cfg, s, ev)) < Work(cfg, s)
  {
    var t := Next(cfg, s, ev);
    assert |t.h.pend| <= |s.h.pend| + 1;
    Multiples(Weight(cfg),
              CM.Rank(s.c) + HM.Rank(cfg.he, s.h) + DM.DomRank(s.v),
              CM.Rank(t.c) + HM.Rank(cfg.he, t.h) + DM.DomRank(t.v));
  }

  lemma MovesWork(cfg: Config, s: System, ev: Event)
    requires s.Valid() && IsMove(ev) && Enabled(cfg, s, ev)
    ensures Work(cfg, Next(cfg, s, ev)) < Work(cfg, s)
  {
    var t := Next(cfg, s, ev);
    assert CM.Rank(t.c) == CM.Rank(s.c) && HM.Rank(cfg.he, t.h) == HM.Rank(cfg.he, s.h)
        && DM.DomRank(t.v) == DM.DomRank(s.v);
  }

  lemma StepWorks(cfg: Config, s: System, ev: Event)
    requires cfg.Valid() && s.Valid() && Inv(cfg, s) && Enabled(cfg, s, ev)
    ensures Work(cfg, Step(cfg, s, ev)) < Work(cfg, s)
  {
    if IsMove(ev) {
      MovesWork(cfg, s, ev);
    } else if ev.ClientActs? {
      ClientWorks(cfg, s);
    } else if ev.HostActs? {
      HostWorks(cfg, s);
    } else if ev.DomActs? {
      DomWorks(cfg, s);
    } else {
      EndsWork(cfg, s, ev);
    }
  }

  /** The scheduler choices that changed something. */
  function RealSteps(cfg: Config, schedule: seq<Event>): nat {
    if schedule == [] then 0
    else
      var earlier := schedule[..|schedule| - 1];
      RealSteps(cfg, earlier)
      + if Enabled(cfg, After(cfg, earlier), schedule[|schedule| - 1]) then 1 else 0
  }

  /** No schedule, however long, makes more real steps than the initial amount of work. */
  lemma {:induction false} EveryRunTerminates(cfg: Config, schedule: seq<Event>)
    requires cfg.Valid()
    ensures RealSteps(cfg, schedule) + Work(cfg, After(cfg, schedule)) <= Work(cfg, Init(cfg))
  {
    if schedule != [] {
      var earlier, ev := schedule[..|schedule| - 1], schedule[|schedule| - 1];
      EveryRunTerminates(cfg, earlier);
      InvAlways(cfg, earlier);
      if Enabled(cfg, After(cfg, earlier), ev) {
        StepWorks(cfg, After(cfg, earlier), ev);
      }
    }
  }

  /** The user has not (yet) answered the prompt. */
  predicate WaitsForUser(cfg: Config, h: HM.Host) {
    h.pc.Ask? && |cfg.he.answers| <= h.asked
  }

  /** Nothing more can happen: what is in flight is less than anybody's read. */
  lemma StuckReads(cfg: Config, s: System)
    requires s.Valid() && ReadsBounded(s) && Stuck(cfg, s)
    ensures s.c.pend == [] && s.h.pend == [] && s.h.dpend == [] && s.v.pend == []
    ensures !CM.Halted(s.c) ==> |InDown(s)| < CM.Need(s.c)
    ensures !s.h.pc.Exit? && !s.h.pc.DomWait? && !WaitsForUser(cfg, s.h) ==>
              |if HM.FromDom(s.h) then InResponse(s) else InUp(s)| < HM.Need(s.h)
    ensures !s.v.pc.Ended? ==> |InRequest(s)| < DM.DomNeed(s.v)
    ensures HM.FromDom(s.h) || s.h.pc.DomWait? ==> !s.v.pc.Ended?
  {
    assert !Enabled(cfg, s, ClientSends) && !Enabled(cfg, s, HostSends);
    assert !Enabled(cfg, s, HostSendsDom) && !Enabled(cfg, s, DomSends);
    if !CM.Halted(s.c) {
      assert !Enabled(cfg, s, ClientReceives) && !Enabled(cfg, s, ClientActs);
    }
    if !s.h.pc.Exit? {
      assert !Enabled(cfg, s, HostReceives) && !Enabled(cfg, s, HostReceivesDom) && !Enabled(cfg, s, HostActs);
    }
    if !s.v.pc.Ended? {
      assert !Enabled(cfg, s, DomReceives) && !Enabled(cfg, s, DomActs);
    } else {
      assert !Enabled(cfg, s, HostSeesEof) && !Enabled(cfg, s, HostSeesExit) && !Enabled(cfg, s, HostActs);
    }
  }

  /** TKey and host are never both running and both waiting, unless for the user; with dom0 as
      a third party, however long the current passphrase is: what dom0 reads too much into one
      field it is short of in none. */
  lemma NoDeadlock(cfg: Config, schedule: seq<Event>)
    requires cfg.Valid()
    ensures
      var s := After(cfg, schedule);
      Stuck(cfg, s) ==> CM.Halted(s.c) || s.h.pc.Exit? || WaitsForUser(cfg, s.h)
  {
    var s := After(cfg, schedule);
    InvAlways(cfg, schedule);
    if Stuck(cfg, s) && !CM.Halted(s.c) && !s.h.pc.Exit? && !WaitsForUser(cfg, s.h) {
      StuckReads(cfg, s);
      SomeoneCanRead(cfg, s);
    }
  }

  /** In every reachable state with both programs running, one of them has its bytes. */
  lemma SomeoneCanRead(cfg: Config, s: System)
    requires cfg.Valid() && Inv(cfg, s)
    requires !CM.Halted(s.c) && !s.h.pc.Exit?
    ensures
      || CM.Need(s.c) <= |InDown(s)|
      || (!s.h.pc.DomWait? && HM.Need(s.h) <= |if HM.FromDom(s.h) then InResponse(s) else InUp(s)|)
      || (cfg.he.mode.Qubes? && !s.v.pc.Ended? && DM.DomNeed(s.v) <= |InRequest(s)|)
      || ((HM.FromDom(s.h) || s.h.pc.DomWait?) && s.v.pc.Ended?)
  {
    if HM.FromDom(s.h) || s.h.pc.DomWait? {
      DomCanRead(cfg, s);
    } else {
      TkeyOrHostCanRead(cfg, s.c, s.h, InUp(s), InDown(s));
    }
  }

  lemma TkeyOrHostCanRead(cfg: Config, c: CM.Client, h: HM.Host, up: bytes, down: bytes)
    requires cfg.Valid() && Link(cfg, c, h, up, down)
    requires !CM.Halted(c) && !h.pc.Exit? && !HM.FromDom(h) && !h.pc.DomWait?
    ensures CM.Need(c) <= |down| || HM.Need(h) <= |up|
  {
  }

  lemma DomCanRead(cfg: Config, s: System)
    requires cfg.Valid() && cfg.he.mode.Qubes?
    requires s.Valid() && Facts(cfg, s.c, s.h) && DomLink(cfg, s.h, s.v, InRequest(s), InResponse(s))
    requires HM.FromDom(s.h) || s.h.pc.DomWait?
    ensures
      || s.v.pc.Ended?
      || (HM.FromDom(s.h) && HM.Need(s.h) <= |InResponse(s)|)
      || DM.DomNeed(s.v) <= |InRequest(s)|
  {
  }

  /** Once the unlocking host has given up after three tries and everything has settled, the
      TKey has made three attempts, asked for no fourth passphrase, and stopped. */
  lemma FailureIsFinal(cfg: Config, schedule: seq<Event>)
    requires cfg.Valid() && cfg.he.mode.Unlock?
    ensures
      var s := After(cfg, schedule);
      s.h.pc == HM.Exit(HM.Failure) ==>
        && s.h.tries == 3 && s.c.attempts == 3 && !s.c.pc.Done? && !s.c.pc.Hash?
        && (Stuck(cfg, s) ==> s.c.pc == CM.Aborted(CM.Exhausted))
  {
    var s := After(cfg, schedule);
    InvAlways(cfg, schedule);
    if s.h.pc == HM.Exit(HM.Failure) {
      FailedThrice(cfg, s);
      if Stuck(cfg, s) {
        StuckReads(cfg, s);
      }
    }
  }

  lemma FailedThrice(cfg: Config, s: System)
    requires cfg.he.mode.Unlock? && s.h.pc == HM.Exit(HM.Failure)
    requires s.Valid() && Link(cfg, s.c, s.h, InUp(s), InDown(s)) && UnlocksRight(cfg, s.h)
    ensures s.h.tries == 3 && s.c.attempts == 3
    ensures s.c.pc.Loop? || s.c.pc.Result? || s.c.pc == CM.Aborted(CM.Exhausted)
    ensures s.c.pc.Result? ==> |InDown(s)| == 1
  {
  }

  /** Once the host has succeeded and everything has settled, the TKey is done. */
  lemma SuccessIsHeard(cfg: Config, schedule: seq<Event>)
    requires cfg.Valid()
    ensures
      var s := After(cfg, schedule);
      s.h.pc == HM.Exit(HM.Success) && Stuck(cfg, s) ==> s.c.pc.Done?
  {
    var s := After(cfg, schedule);
    InvAlways(cfg, schedule);
    if Stuck(cfg, s) {
      StuckReads(cfg, s);
    }
  }
}
