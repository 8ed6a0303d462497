/** The programs with loops and buffers, and the machines that meet on the wire, are the same:
    at any point of any schedule, what a machine is and has written is what its program makes
    of the bytes received so far. */
module Histories {
  import opened Bytes
  import opened System
  import opened Messages
  import CM = ClientMachine
  import HM = HostMachine
  import DM = Dom0Machine

  /** Everything a reader has taken out of a stream. */
  function Taken(s: Stream): bytes
    requires s.Valid()
  {
    s.log[..s.taken]
  }

  function Settled(c: CM.Client): CM.Client {
    c.(pend := [], got := [])
  }

  /** Whatever arrives next, running the program on all of it from the start is the same as
      going on from the machine's state. */
  ghost predicate ClientFollows(cfg: Config, s: System)
    requires s.Valid()
  {
    forall next: bytes ::
      CM.Run(cfg.p, cfg.ce, CM.INIT_CLIENT, Taken(s.down) + next, [])
      == CM.Run(cfg.p, cfg.ce, Settled(s.c), s.c.got + next, s.up.log + s.c.pend)
  }

  lemma OneMore(all: bytes, taken: nat, got: bytes, next: bytes)
    requires taken < |all|
    ensures all[..taken + 1] + next == all[..taken] + ([all[taken]] + next)
    ensures (got + [all[taken]]) + next == got + ([all[taken]] + next)
  {
  }

  lemma ClientTakes(cfg: Config, s: System)
    requires s.Valid() && ClientFollows(cfg, s) && Enabled(cfg, s, ClientReceives)
    ensures ClientFollows(cfg, Next(cfg, s, ClientReceives))
  {
    var t := Next(cfg, s, ClientReceives);
    var b := [s.down.log[s.down.taken]];
    assert Settled(t.c) == Settled(s.c) && t.up == s.up && t.c.pend == s.c.pend;
    forall next: bytes
      ensures CM.Run(cfg.p, cfg.ce, CM.INIT_CLIENT, Taken(t.down) + next, [])
           == CM.Run(cfg.p, cfg.ce, Settled(t.c), t.c.got + next, t.up.log + t.c.pend)
    {
      OneMore(s.down.log, s.down.taken, s.c.got, next);
      ClientFollowsAt(cfg, s, b + next);
    }
  }

  lemma ClientFollowsAt(cfg: Config, s: System, next: bytes)
    requires s.Valid() && ClientFollows(cfg, s)
    ensures CM.Run(cfg.p, cfg.ce, CM.INIT_CLIENT, Taken(s.down) + next, [])
         == CM.Run(cfg.p, cfg.ce, Settled(s.c), s.c.got + next, s.up.log + s.c.pend)
  {
  }

  lemma ClientSettles(cfg: Config, c: CM.Client, next: bytes, out: bytes)
    requires CM.CanAct(c)
    ensures
      var d := CM.Act(cfg.p, cfg.ce, c);
      CM.Run(cfg.p, cfg.ce, Settled(c), c.got + next, out + c.pend)
      == CM.Run(cfg.p, cfg.ce, Settled(d), d.got + next, out + d.pend)
  {
    var d := CM.Act(cfg.p, cfg.ce, c);
    assert (c.got + next)[..CM.Need(c)] == c.got && (c.got + next)[CM.Need(c)..] == next;
    assert Settled(c).(pend := [], got := c.got) == c;
    assert d.got == [] && d.got + next == next && out + c.pend == out;
  }

  lemma ClientActsFollow(cfg: Config, s: System)
    requires s.Valid() && ClientFollows(cfg, s) && CM.CanAct(s.c)
    ensures ClientFollows(cfg, Next(cfg, s, ClientActs))
  {
    var t := Next(cfg, s, ClientActs);
    forall next: bytes
      ensures CM.Run(cfg.p, cfg.ce, CM.INIT_CLIENT, Taken(t.down) + next, [])
           == CM.Run(cfg.p, cfg.ce, Settled(t.c), t.c.got + next, t.up.log + t.c.pend)
    {
      ClientSettles(cfg, s.c, next, s.up.log);
    }
  }

  lemma OthersLeaveClient(cfg: Config, s: System, ev: Event)
    requires s.Valid() && ClientFollows(cfg, s) && Enabled(cfg, s, ev)
    requires !ev.ClientActs? && !ev.ClientReceives?
    ensures ClientFollows(cfg, Next(cfg, s, ev))
  {
    var t := Next(cfg, s, ev);
    assert Settled(t.c) == Settled(s.c) && t.c.got == s.c.got;
    assert t.up.log + t.c.pend == s.up.log + s.c.pend;
    assert Taken(t.down) == Taken(s.down);
  }

  lemma {:induction false} ClientAlwaysFollows(cfg: Config, schedule: seq<Event>)
    ensures ClientFollows(cfg, After(cfg, schedule))
  {
    if schedule != [] {
      var earlier, ev := schedule[..|schedule| - 1], schedule[|schedule| - 1];
      var s := After(cfg, earlier);
      ClientAlwaysFollows(cfg, earlier);
      if Enabled(cfg, s, ev) {
        if ev.ClientActs? {
          ClientActsFollow(cfg, s);
        } else if ev.ClientReceives? {
          ClientTakes(cfg, s);
        } else {
          OthersLeaveClient(cfg, s, ev);
        }
      }
    } else {
      var s := After(cfg, []);
      forall next: bytes
        ensures CM.Run(cfg.p, cfg.ce, CM.INIT_CLIENT, Taken(s.down) + next, [])
             == CM.Run(cfg.p, cfg.ce, Settled(s.c), s.c.got + next, s.up.log + s.c.pend)
      {
        assert Taken(s.down) + next == next && s.c.got + next == next && s.up.log + s.c.pend == [];
      }
    }
  }

  /** When the TKey's machine has halted, or waits for more, its program (`ClientApp.Execute`) run
      alone on the bytes received so far has written exactly the bytes written so far. */
  lemma ClientProgramIsMachine(cfg: Config, schedule: seq<Event>)
    ensures
      var s := After(cfg, schedule);
      s.c.pend == [] && (CM.Halted(s.c) || |s.c.got| < CM.Need(s.c)) ==>
        CM.Run(cfg.p, cfg.ce, CM.INIT_CLIENT, Taken(s.down), [])
        == CM.Outcome(Settled(s.c), s.up.log, s.c.got)
  {
    var s := After(cfg, schedule);
    ClientAlwaysFollows(cfg, schedule);
    ClientFollowsAt(cfg, s, []);
    assert Taken(s.down) + [] == Taken(s.down) && s.c.got + [] == s.c.got && s.up.log + [] == s.up.log;
    if s.c.pend == [] && (CM.Halted(s.c) || |s.c.got| < CM.Need(s.c)) {
      ClientRests(cfg, Settled(s.c), s.c.got, s.up.log);
    }
  }

  lemma ClientRests(cfg: Config, c: CM.Client, input: bytes, out: bytes)
    requires CM.Halted(c) || |input| < CM.Need(c)
    ensures CM.Run(cfg.p, cfg.ce, c, input, out) == CM.Outcome(c, out, input)
  {
  }

  // ----- The host -----

  function HostSettled(h: HM.Host): HM.Host {
    h.(pend := [], dpend := [], got := [])
  }

  /** As for the client. */
  ghost predicate HostFollows(cfg: Config, s: System)
    requires s.Valid()
  {
    HostFollowsAs(cfg, s, s.h, s.down.log + s.h.pend, s.req.log + s.h.dpend)
  }

  /** The same, with `h` for the host's state and what it has written. */
  ghost predicate HostFollowsAs(cfg: Config, s: System, h: HM.Host, out: bytes, dout: bytes)
    requires s.Valid()
  {
    forall next: bytes, dnext: bytes ::
      HM.Run(cfg.p, cfg.he, HM.InitHost(cfg.he), Taken(s.up) + next, Taken(s.rsp) + dnext, [], [])
      == HM.Run(cfg.p, cfg.he, HostSettled(h), HM.TkeyRead(h) + next, HM.DomRead(h) + dnext, out, dout)
  }

  /** From `h` on, the Qubes program has met the end of dom0's output where it reads. */
  predicate MetEof(s: System, h: HM.Host, out: bytes, dout: bytes) {
    && HM.FromDom(h) && |h.got| < HM.Need(h) && HostSettled(s.h) == HostSettled(h.(pc := HM.Exit(HM.Error)))
    && out == s.down.log + s.h.pend && dout == s.req.log + s.h.dpend
  }

  /** From `h` on, it has seen the exit of dom0's program that it waited for. */
  predicate SawExit(s: System, h: HM.Host, out: bytes, dout: bytes) {
    && h.pc.DomWait? && h.got == [] && s.v.pc.Ended?
    && HostSettled(s.h) == HostSettled(HM.SeeExit(h, s.v.pc.ok))
    && s.down.log + s.h.pend == out + (if s.v.pc.ok then [DECRYPTION_SUCCESS] else [])
    && dout == s.req.log + s.h.dpend
  }

  ghost predicate HeardOfEnd(cfg: Config, s: System)
    requires s.Valid()
  {
    exists h, out, dout :: HostFollowsAs(cfg, s, h, out, dout) && (MetEof(s, h, out, dout) || SawExit(s, h, out, dout))
  }

  ghost predicate HostStillFollows(cfg: Config, s: System)
    requires s.Valid()
  {
    HostFollows(cfg, s) || (s.h.pc.Exit? && HeardOfEnd(cfg, s))
  }

  lemma HostFollowsAt(cfg: Config, s: System, h: HM.Host, out: bytes, dout: bytes, next: bytes, dnext: bytes)
    requires s.Valid() && HostFollowsAs(cfg, s, h, out, dout)
    ensures HM.Run(cfg.p, cfg.he, HM.InitHost(cfg.he), Taken(s.up) + next, Taken(s.rsp) + dnext, [], [])
         == HM.Run(cfg.p, cfg.he, HostSettled(h), HM.TkeyRead(h) + next, HM.DomRead(h) + dnext, out, dout)
  {
  }

  /** Bytes that have only moved from the streams into the host's hands. */
  lemma HostTakes(cfg: Config, s: System, t: System, b: bytes, db: bytes)
    requires s.Valid() && t.Valid() && HostFollows(cfg, s)
    requires HostSettled(t.h) == HostSettled(s.h)
    requires t.down.log + t.h.pend == s.down.log + s.h.pend && t.req.log + t.h.dpend == s.req.log + s.h.dpend
    requires Taken(t.up) == Taken(s.up) + b && HM.TkeyRead(t.h) == HM.TkeyRead(s.h) + b
    requires Taken(t.rsp) == Taken(s.rsp) + db && HM.DomRead(t.h) == HM.DomRead(s.h) + db
    ensures HostFollows(cfg, t)
  {
    var out, dout := s.down.log + s.h.pend, s.req.log + s.h.dpend;
    forall next: bytes, dnext: bytes
      ensures HM.Run(cfg.p, cfg.he, HM.InitHost(cfg.he), Taken(t.up) + next, Taken(t.rsp) + dnext, [], [])
           == HM.Run(cfg.p, cfg.he, HostSettled(t.h), HM.TkeyRead(t.h) + next, HM.DomRead(t.h) + dnext, out, dout)
    {
      HostFollowsAt(cfg, s, s.h, out, dout, b + next, db + dnext);
      Regroup(Taken(s.up), b, next);
      Regroup(Taken(s.rsp), db, dnext);
      Regroup(HM.TkeyRead(s.h), b, next);
      Regroup(HM.DomRead(s.h), db, dnext);
    }
  }

  lemma HostTakesUp(cfg: Config, s: System)
    requires s.Valid() && HostFollows(cfg, s) && Enabled(cfg, s, HostReceives)
    ensures HostFollows(cfg, Next(cfg, s, HostReceives))
  {
    HostTakes(cfg, s, Next(cfg, s, HostReceives), [s.up.log[s.up.taken]], []);
  }

  lemma HostTakesResponse(cfg: Config, s: System)
    requires s.Valid() && HostFollows(cfg, s) && Enabled(cfg, s, HostReceivesDom)
    ensures HostFollows(cfg, Next(cfg, s, HostReceivesDom))
  {
    HostTakes(cfg, s, Next(cfg, s, HostReceivesDom), [], [s.rsp.log[s.rsp.taken]]);
  }

  lemma HostFeeds(cfg: Config, h: HM.Host, next: bytes, dnext: bytes)
    requires HM.CanAct(cfg.he, h)
    ensures !HM.Blocked(cfg.he, HostSettled(h), HM.TkeyRead(h) + next, HM.DomRead(h) + dnext)
    ensures HM.Fed(cfg.he, HostSettled(h), HM.TkeyRead(h) + next, HM.DomRead(h) + dnext) == h
  {
    assert (h.got + next)[..HM.Need(h)] == h.got && (h.got + dnext)[..HM.Need(h)] == h.got;
  }

  lemma HostSettles(cfg: Config, h: HM.Host, next: bytes, dnext: bytes, out: bytes, dout: bytes)
    requires HM.CanAct(cfg.he, h)
    ensures
      var d := HM.Act(cfg.p, cfg.he, h);
      HM.Run(cfg.p, cfg.he, HostSettled(h), HM.TkeyRead(h) + next, HM.DomRead(h) + dnext, out + h.pend, dout + h.dpend)
      == HM.Run(cfg.p, cfg.he, HostSettled(d), HM.TkeyRead(d) + next, HM.DomRead(d) + dnext,
                out + d.pend, dout + d.dpend)
  {
    var d := HM.Act(cfg.p, cfg.he, h);
    HostFeeds(cfg, h, next, dnext);
    HM.ActKeeps(cfg.p, cfg.he, h);
    assert out + h.pend == out && dout + h.dpend == dout;
    assert [] + next == next && [] + dnext == dnext;
    assert (h.got + next)[HM.Need(h)..] == next && (h.got + dnext)[HM.Need(h)..] == dnext;
    assert HM.Sent(d) == HostSettled(d);
  }

  lemma HostActsFollow(cfg: Config, s: System)
    requires s.Valid() && HostFollows(cfg, s) && HM.CanAct(cfg.he, s.h)
    ensures HostFollows(cfg, Next(cfg, s, HostActs))
  {
    var t := Next(cfg, s, HostActs);
    forall next: bytes, dnext: bytes
      ensures HM.Run(cfg.p, cfg.he, HM.InitHost(cfg.he), Taken(t.up) + next, Taken(t.rsp) + dnext, [], [])
           == HM.Run(cfg.p, cfg.he, HostSettled(t.h), HM.TkeyRead(t.h) + next, HM.DomRead(t.h) + dnext,
                     t.down.log + t.h.pend, t.req.log + t.h.dpend)
    {
      HostFollowsAt(cfg, s, s.h, s.down.log + s.h.pend, s.req.log + s.h.dpend, next, dnext);
      HostSettles(cfg, s.h, next, dnext, s.down.log, s.req.log);
    }
  }

  /** Two states that look the same to the host's program. */
  predicate SameToHost(s: System, t: System)
    requires s.Valid() && t.Valid()
  {
    && HostSettled(t.h) == HostSettled(s.h) && t.h.got == s.h.got
    && t.down.log + t.h.pend == s.down.log + s.h.pend
    && t.req.log + t.h.dpend == s.req.log + s.h.dpend
    && Taken(t.up) == Taken(s.up) && Taken(t.rsp) == Taken(s.rsp)
  }

  lemma OthersLookSame(cfg: Config, s: System, ev: Event)
    requires s.Valid() && Enabled(cfg, s, ev)
    requires !ev.HostActs? && !ev.HostReceives? && !ev.HostReceivesDom? && !ev.HostSeesEof? && !ev.HostSeesExit?
    ensures SameToHost(s, Step(cfg, s, ev))
  {
  }

  lemma SameHostFollows(cfg: Config, s: System, t: System)
    requires s.Valid() && t.Valid() && SameToHost(s, t) && HostFollows(cfg, s)
    ensures HostFollows(cfg, t)
  {
    HostTakes(cfg, s, t, [], []);
  }

  lemma OthersLeaveHost(cfg: Config, s: System, ev: Event)
    requires s.Valid() && HostFollows(cfg, s) && Enabled(cfg, s, ev)
    requires !ev.HostActs? && !ev.HostReceives? && !ev.HostReceivesDom? && !ev.HostSeesEof? && !ev.HostSeesExit?
    ensures HostFollows(cfg, Step(cfg, s, ev))
  {
    OthersLookSame(cfg, s, ev);
    SameHostFollows(cfg, s, Step(cfg, s, ev));
  }

  lemma SameToFollowAs(cfg: Config, s: System, t: System, h: HM.Host, out: bytes, dout: bytes)
    requires s.Valid() && t.Valid() && Taken(t.up) == Taken(s.up) && Taken(t.rsp) == Taken(s.rsp)
    requires HostFollowsAs(cfg, s, h, out, dout)
    ensures HostFollowsAs(cfg, t, h, out, dout)
  {
  }

  /** The two ways of hearing of the end. */
  lemma HostHears(cfg: Config, s: System, ev: Event)
    requires s.Valid() && HostFollows(cfg, s) && Enabled(cfg, s, ev) && (ev.HostSeesEof? || ev.HostSeesExit?)
    requires s.h.pc.DomWait? ==> s.h.got == []
    ensures HostStillFollows(cfg, Next(cfg, s, ev))
  {
    var t := Next(cfg, s, ev);
    var out, dout := s.down.log + s.h.pend, s.req.log + s.h.dpend;
    SameToFollowAs(cfg, s, t, s.h, out, dout);
    if ev.HostSeesEof? {
      assert MetEof(t, s.h, out, dout);
    } else {
      assert SawExit(t, s.h, out, dout);
    }
  }

  /** After that, nothing happens to the host but that its last byte is sent. */
  lemma HeardOfEndStays(cfg: Config, s: System, ev: Event)
    requires s.Valid() && s.h.pc.Exit? && HeardOfEnd(cfg, s) && Enabled(cfg, s, ev)
    ensures Next(cfg, s, ev).h.pc.Exit? && HeardOfEnd(cfg, Next(cfg, s, ev))
  {
    ExitedLooksSame(cfg, s, ev);
    SameHeardOfEnd(cfg, s, Next(cfg, s, ev));
  }

  lemma ExitedLooksSame(cfg: Config, s: System, ev: Event)
    requires s.Valid() && s.h.pc.Exit? && Enabled(cfg, s, ev)
    ensures
      var t := Step(cfg, s, ev);
      SameToHost(s, t) && (s.v.pc.Ended? ==> t.v.pc == s.v.pc)
  {
    OthersLookSame(cfg, s, ev);
  }

  lemma SameHeardOfEnd(cfg: Config, s: System, t: System)
    requires s.Valid() && t.Valid() && SameToHost(s, t) && (s.v.pc.Ended? ==> t.v.pc == s.v.pc)
    requires HeardOfEnd(cfg, s)
    ensures HeardOfEnd(cfg, t)
  {
    var h, out, dout :| HostFollowsAs(cfg, s, h, out, dout) && (MetEof(s, h, out, dout) || SawExit(s, h, out, dout));
    SameToFollowAs(cfg, s, t, h, out, dout);
    EndStays(s, t, h, out, dout);
  }

  lemma EndStays(s: System, t: System, h: HM.Host, out: bytes, dout: bytes)
    requires s.Valid() && t.Valid() && SameToHost(s, t) && (s.v.pc.Ended? ==> t.v.pc == s.v.pc)
    requires MetEof(s, h, out, dout) || SawExit(s, h, out, dout)
    ensures MetEof(t, h, out, dout) || SawExit(t, h, out, dout)
  {
  }

  lemma HostStepFollows(cfg: Config, s: System, ev: Event)
    requires s.Valid() && HostStillFollows(cfg, s) && (s.h.pc.DomWait? ==> s.h.got == [])
    ensures HostStillFollows(cfg, Step(cfg, s, ev))
  {
    if Enabled(cfg, s, ev) {
      if !HostFollows(cfg, s) {
        HeardOfEndStays(cfg, s, ev);
      } else {
        match ev
        case HostActs => HostActsFollow(cfg, s);
        case HostReceives => HostTakesUp(cfg, s);
        case HostReceivesDom => HostTakesResponse(cfg, s);
        case HostSeesEof => HostHears(cfg, s, ev);
        case HostSeesExit => HostHears(cfg, s, ev);
        case _ => OthersLeaveHost(cfg, s, ev);
      }
    }
  }

  /** A host never holds more than its read asks for. */
  lemma {:induction false} HoldsNoMore(cfg: Config, schedule: seq<Event>)
    ensures
      var h := After(cfg, schedule).h;
      |h.got| <= HM.Need(h)
  {
    if schedule != [] {
      HoldsNoMore(cfg, schedule[..|schedule| - 1]);
      StepHoldsNoMore(cfg, After(cfg, schedule[..|schedule| - 1]), schedule[|schedule| - 1]);
    }
  }

  lemma StepHoldsNoMore(cfg: Config, s: System, ev: Event)
    requires s.Valid() && |s.h.got| <= HM.Need(s.h)
    ensures |Step(cfg, s, ev).h.got| <= HM.Need(Step(cfg, s, ev).h)
  {
    if Enabled(cfg, s, ev) && ev.HostActs? {
      HM.ActKeeps(cfg.p, cfg.he, s.h);
    }
  }

  lemma HostStarts(cfg: Config)
    ensures HostFollows(cfg, Init(cfg))
  {
    var s := Init(cfg);
    forall next: bytes, dnext: bytes
      ensures HM.Run(cfg.p, cfg.he, HM.InitHost(cfg.he), Taken(s.up) + next, Taken(s.rsp) + dnext, [], [])
           == HM.Run(cfg.p, cfg.he, HostSettled(s.h), HM.TkeyRead(s.h) + next, HM.DomRead(s.h) + dnext,
                     s.down.log + s.h.pend, s.req.log + s.h.dpend)
    {
      assert HostSettled(s.h) == HM.InitHost(cfg.he);
      assert Taken(s.up) + next == next && HM.TkeyRead(s.h) + next == next;
      assert Taken(s.rsp) + dnext == dnext && HM.DomRead(s.h) + dnext == dnext;
      assert s.down.log + s.h.pend == [] && s.req.log + s.h.dpend == [];
    }
  }

  lemma {:induction false} HostAlwaysFollows(cfg: Config, schedule: seq<Event>)
    ensures HostStillFollows(cfg, After(cfg, schedule))
  {
    if schedule == [] {
      HostStarts(cfg);
    } else {
      var earlier := schedule[..|schedule| - 1];
      HostAlwaysFollows(cfg, earlier);
      HoldsNoMore(cfg, earlier);
      HostStepFollows(cfg, After(cfg, earlier), schedule[|schedule| - 1]);
    }
  }

  /** Everything is written, and the host has exited, or waits. */
  predicate HostAtRest(cfg: Config, h: HM.Host) {
    && h.pend == [] && h.dpend == []
    && HM.Blocked(cfg.he, HostSettled(h), HM.TkeyRead(h), HM.DomRead(h))
  }

  /** The host's program (`HostApp.Unlock`, `Enrol` or `Qubes`), run alone on the bytes received
      so far, has written exactly the bytes written so far, to the TKey and to dom0, and is
      where the machine is: as it is, or with the exit status of dom0's program that it waited
      for, or having met the end of dom0's output where it waits for more. */
  predicate HostReplayed(cfg: Config, s: System)
    requires s.Valid()
  {
    var o := HM.Run(cfg.p, cfg.he, HM.InitHost(cfg.he), Taken(s.up), Taken(s.rsp), [], []);
    || o == HM.Outcome(HostSettled(s.h), s.down.log, s.req.log, HM.TkeyRead(s.h), HM.DomRead(s.h))
    || (o.h.pc.DomWait? && s.v.pc.Ended? &&
        var end := HM.Concluded(o, HM.Some(s.v.pc.ok));
        end.h == HostSettled(s.h) && end.out == s.down.log && end.dout == s.req.log)
    || (HM.FromDom(o.h) && |o.drest| < HM.Need(o.h) && s.h.pc == HM.Exit(HM.Error)
        && o.out == s.down.log && o.dout == s.req.log)
  }

  lemma HostRests(cfg: Config, h: HM.Host, input: bytes, dinput: bytes, out: bytes, dout: bytes)
    requires HM.Blocked(cfg.he, h, input, dinput)
    ensures HM.Run(cfg.p, cfg.he, h, input, dinput, out, dout) == HM.Outcome(h, out, dout, input, dinput)
  {
  }

  lemma HostReplays(cfg: Config, s: System, h: HM.Host, out: bytes, dout: bytes)
    requires s.Valid() && HostFollowsAs(cfg, s, h, out, dout)
    requires HM.Blocked(cfg.he, HostSettled(h), HM.TkeyRead(h), HM.DomRead(h))
    ensures HM.Run(cfg.p, cfg.he, HM.InitHost(cfg.he), Taken(s.up), Taken(s.rsp), [], [])
         == HM.Outcome(HostSettled(h), out, dout, HM.TkeyRead(h), HM.DomRead(h))
  {
    HostFollowsAt(cfg, s, h, out, dout, [], []);
    assert Taken(s.up) + [] == Taken(s.up) && Taken(s.rsp) + [] == Taken(s.rsp);
    assert HM.TkeyRead(h) + [] == HM.TkeyRead(h) && HM.DomRead(h) + [] == HM.DomRead(h);
    HostRests(cfg, HostSettled(h), HM.TkeyRead(h), HM.DomRead(h), out, dout);
  }

  /** When the host's machine has halted, or waits, it is what its program makes of the bytes
      received so far. */
  lemma HostProgramIsMachine(cfg: Config, schedule: seq<Event>)
    ensures
      var s := After(cfg, schedule);
      HostAtRest(cfg, s.h) ==> HostReplayed(cfg, s)
  {
    var s := After(cfg, schedule);
    HostAlwaysFollows(cfg, schedule);
    if HostAtRest(cfg, s.h) {
      HostReplaysAtRest(cfg, s);
    }
  }

  lemma EndReplays(cfg: Config, s: System, h: HM.Host, out: bytes, dout: bytes)
    requires s.Valid() && HostFollowsAs(cfg, s, h, out, dout) && s.h.pend == [] && s.h.dpend == []
    requires MetEof(s, h, out, dout) || SawExit(s, h, out, dout)
    ensures HostReplayed(cfg, s)
  {
    assert s.down.log + [] == s.down.log && s.req.log + [] == s.req.log && out + [] == out;
    HostReplays(cfg, s, h, out, dout);
  }

  lemma HostReplaysAtRest(cfg: Config, s: System)
    requires s.Valid() && HostStillFollows(cfg, s) && HostAtRest(cfg, s.h)
    ensures HostReplayed(cfg, s)
  {
    if HostFollows(cfg, s) {
      assert s.down.log + [] == s.down.log && s.req.log + [] == s.req.log;
      HostReplays(cfg, s, s.h, s.down.log, s.req.log);
    } else {
      var h, out, dout :|
        HostFollowsAs(cfg, s, h, out, dout) && (MetEof(s, h, out, dout) || SawExit(s, h, out, dout));
      EndReplays(cfg, s, h, out, dout);
    }
  }

  // ----- dom0 -----

  function DomSettled(v: DM.Dom0): DM.Dom0 {
    v.(pend := [], got := [])
  }

  /** As for the others, with `v` for dom0's state. */
  ghost predicate DomFollows(cfg: Config, s: System, v: DM.Dom0)
    requires s.Valid()
  {
    forall next: bytes ::
      DM.DomRun(cfg.ve, DM.INIT_DOM0, Taken(s.req) + next, [])
      == DM.DomRun(cfg.ve, DomSettled(v), v.got + next, s.rsp.log + v.pend)
  }

  /** The state, or the one in which the end of the input was met. */
  predicate IsOrWas(s: System, v: DM.Dom0) {
    s.v == v || (DomReads(v) && s.v == v.(pc := DM.Ended(false), got := []))
  }

  ghost predicate DomStillFollows(cfg: Config, s: System)
    requires s.Valid()
  {
    exists v :: IsOrWas(s, v) && DomFollows(cfg, s, v)
  }

  lemma DomFollowsAt(cfg: Config, s: System, v: DM.Dom0, next: bytes)
    requires s.Valid() && DomFollows(cfg, s, v)
    ensures DM.DomRun(cfg.ve, DM.INIT_DOM0, Taken(s.req) + next, [])
         == DM.DomRun(cfg.ve, DomSettled(v), v.got + next, s.rsp.log + v.pend)
  {
  }

  lemma DomTakes(cfg: Config, s: System)
    requires s.Valid() && DomFollows(cfg, s, s.v) && Enabled(cfg, s, DomReceives)
    ensures DomStillFollows(cfg, Next(cfg, s, DomReceives))
  {
    var t := Next(cfg, s, DomReceives);
    var b := [s.req.log[s.req.taken]];
    assert DomSettled(t.v) == DomSettled(s.v) && t.rsp == s.rsp && t.v.pend == s.v.pend;
    forall next: bytes
      ensures DM.DomRun(cfg.ve, DM.INIT_DOM0, Taken(t.req) + next, [])
           == DM.DomRun(cfg.ve, DomSettled(t.v), t.v.got + next, t.rsp.log + t.v.pend)
    {
      OneMore(s.req.log, s.req.taken, s.v.got, next);
      DomFollowsAt(cfg, s, s.v, b + next);
    }
    Follows(cfg, t, t.v);
  }

  lemma DomSettles(cfg: Config, v: DM.Dom0, next: bytes, out: bytes)
    requires DM.DomCanAct(v)
    ensures
      var d := DM.DomAct(cfg.ve, v);
      DM.DomRun(cfg.ve, DomSettled(v), v.got + next, out + v.pend)
      == DM.DomRun(cfg.ve, DomSettled(d), d.got + next, out + d.pend)
  {
    var d := DM.DomAct(cfg.ve, v);
    assert (v.got + next)[..DM.DomNeed(v)] == v.got && (v.got + next)[DM.DomNeed(v)..] == next;
    assert DomSettled(v).(pend := [], got := v.got) == v;
    assert d.got == [] && d.got + next == next && out + v.pend == out;
  }

  lemma DomActsFollow(cfg: Config, s: System)
    requires s.Valid() && DomFollows(cfg, s, s.v) && DM.DomCanAct(s.v)
    ensures DomStillFollows(cfg, Next(cfg, s, DomActs))
  {
    var t := Next(cfg, s, DomActs);
    forall next: bytes
      ensures DM.DomRun(cfg.ve, DM.INIT_DOM0, Taken(t.req) + next, [])
           == DM.DomRun(cfg.ve, DomSettled(t.v), t.v.got + next, t.rsp.log + t.v.pend)
    {
      DomFollowsAt(cfg, s, s.v, next);
      DomSettles(cfg, s.v, next, s.rsp.log);
    }
    Follows(cfg, t, t.v);
  }

  /** Everyone else's steps, and the sending of what is pending. */
  lemma OthersLeaveDom(cfg: Config, s: System, ev: Event, v: DM.Dom0)
    requires s.Valid() && IsOrWas(s, v) && DomFollows(cfg, s, v) && Enabled(cfg, s, ev)
    requires !ev.DomActs? && !ev.DomReceives? && !ev.DomSeesEof?
    ensures DomStillFollows(cfg, Next(cfg, s, ev))
  {
    var t := Next(cfg, s, ev);
    var v' := v.(pend := t.v.pend);
    assert IsOrWas(t, v') && DomSettled(v') == DomSettled(v) && v'.got == v.got;
    assert t.rsp.log + v'.pend == s.rsp.log + v.pend;
    assert Taken(t.req) == Taken(s.req);
    assert DomFollows(cfg, t, v');
    Follows(cfg, t, v');
  }

  lemma DomStepFollows(cfg: Config, s: System, ev: Event)
    requires s.Valid() && DomStillFollows(cfg, s) && Enabled(cfg, s, ev)
    ensures DomStillFollows(cfg, Next(cfg, s, ev))
  {
    var v :| IsOrWas(s, v) && DomFollows(cfg, s, v);
    if ev.DomActs? || ev.DomReceives? || ev.DomSeesEof? {
      RunningIs(cfg, s, ev, v);
      DomOwnStep(cfg, s, ev);
    } else {
      OthersLeaveDom(cfg, s, ev, v);
    }
  }

  lemma RunningIs(cfg: Config, s: System, ev: Event, v: DM.Dom0)
    requires Enabled(cfg, s, ev) && (ev.DomActs? || ev.DomReceives? || ev.DomSeesEof?) && IsOrWas(s, v)
    ensures v == s.v
  {
    assert !s.v.pc.Ended?;
  }

  lemma DomOwnStep(cfg: Config, s: System, ev: Event)
    requires s.Valid() && DomFollows(cfg, s, s.v) && Enabled(cfg, s, ev)
    requires ev.DomActs? || ev.DomReceives? || ev.DomSeesEof?
    ensures DomStillFollows(cfg, Next(cfg, s, ev))
  {
    match ev
    case DomActs => DomActsFollow(cfg, s);
    case DomReceives => DomTakes(cfg, s);
    case _ => DomMeetsEof(cfg, s);
  }

  lemma Follows(cfg: Config, s: System, v: DM.Dom0)
    requires s.Valid() && IsOrWas(s, v) && DomFollows(cfg, s, v)
    ensures DomStillFollows(cfg, s)
  {
  }

  lemma DomMeetsEof(cfg: Config, s: System)
    requires s.Valid() && DomFollows(cfg, s, s.v) && Enabled(cfg, s, DomSeesEof)
    ensures DomStillFollows(cfg, Next(cfg, s, DomSeesEof))
  {
    var t := Next(cfg, s, DomSeesEof);
    assert DomFollows(cfg, t, s.v);
    Follows(cfg, t, s.v);
  }

  lemma DomStarts(cfg: Config)
    ensures DomStillFollows(cfg, Init(cfg))
  {
    var s := Init(cfg);
    forall next: bytes
      ensures DM.DomRun(cfg.ve, DM.INIT_DOM0, Taken(s.req) + next, [])
           == DM.DomRun(cfg.ve, DomSettled(s.v), s.v.got + next, s.rsp.log + s.v.pend)
    {
      assert Taken(s.req) + next == next && s.v.got + next == next && s.rsp.log + s.v.pend == [];
    }
    assert IsOrWas(s, s.v) && DomFollows(cfg, s, s.v);
  }

  lemma {:induction false} DomAlwaysFollows(cfg: Config, schedule: seq<Event>)
    ensures DomStillFollows(cfg, After(cfg, schedule))
  {
    if schedule == [] {
      DomStarts(cfg);
    } else {
      var earlier, ev := schedule[..|schedule| - 1], schedule[|schedule| - 1];
      DomAlwaysFollows(cfg, earlier);
      if Enabled(cfg, After(cfg, earlier), ev) {
        DomStepFollows(cfg, After(cfg, earlier), ev);
      }
    }
  }

  lemma DomRests(cfg: Config, v: DM.Dom0, input: bytes, out: bytes)
    requires v.pc.Ended? || |input| < DM.DomNeed(v)
    ensures DM.DomRun(cfg.ve, v, input, out) == DM.DomOutcome(v, out, input)
  {
  }

  /** dom0's program, run alone on the bytes received so far, has written exactly the bytes
      written so far and run exactly the commands run so far. */
  predicate DomReplayed(cfg: Config, s: System)
    requires s.Valid()
  {
    var o := DM.DomRun(cfg.ve, DM.INIT_DOM0, Taken(s.req), []);
    && o.out == s.rsp.log && o.v.added == s.v.added && o.v.killed == s.v.killed
    && (o == DM.DomOutcome(DomSettled(s.v), s.rsp.log, s.v.got)
        || (s.v.pc == DM.Ended(false) && |o.rest| < DM.DomNeed(o.v)))
  }

  lemma DomReplays(cfg: Config, s: System, v: DM.Dom0)
    requires s.Valid() && IsOrWas(s, v) && DomFollows(cfg, s, v)
    requires s.v.pend == [] && (s.v.pc.Ended? || |s.v.got| < DM.DomNeed(s.v))
    ensures DomReplayed(cfg, s)
  {
    DomFollowsAt(cfg, s, v, []);
    assert Taken(s.req) + [] == Taken(s.req) && v.got + [] == v.got && s.rsp.log + [] == s.rsp.log;
    DomRests(cfg, DomSettled(v), v.got, s.rsp.log);
  }

  /** When dom0's machine has ended, or waits, it is what its program (`Dom0App.Execute`) makes of
      the bytes received so far; or it met the end of its input where the program waits. */
  lemma DomProgramIsMachine(cfg: Config, schedule: seq<Event>)
    ensures
      var s := After(cfg, schedule);
      s.v.pend == [] && (s.v.pc.Ended? || |s.v.got| < DM.DomNeed(s.v)) ==> DomReplayed(cfg, s)
  {
    var s := After(cfg, schedule);
    DomAlwaysFollows(cfg, schedule);
    if s.v.pend == [] && (s.v.pc.Ended? || |s.v.got| < DM.DomNeed(s.v)) {
      var v :| IsOrWas(s, v) && DomFollows(cfg, s, v);
      DomReplays(cfg, s, v);
    }
  }
}
