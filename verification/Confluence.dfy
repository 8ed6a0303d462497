/** The scheduler does not matter: all schedules that go on until nothing more can happen end
    in the same state. */
module Confluence {
  import opened System
  import Liveness
  import Invariant

  predicate OfClient(ev: Event) {
    ev.ClientSends? || ev.ClientReceives? || ev.ClientActs?
  }

  predicate OfDom(ev: Event) {
    ev.DomSends? || ev.DomReceives? || ev.DomActs? || ev.DomSeesEof?
  }

  predicate OfHost(ev: Event) {
    !OfClient(ev) && !OfDom(ev)
  }

  /** Two steps that are both possible can be taken in either order, to the same effect. */
  predicate Commute(cfg: Config, s: System, a: Event, b: Event)
    requires s.Valid() && Enabled(cfg, s, a) && Enabled(cfg, s, b)
  {
    var sa, sb := Step(cfg, s, a), Step(cfg, s, b);
    Enabled(cfg, sa, b) && Enabled(cfg, sb, a) && Step(cfg, sa, b) == Step(cfg, sb, a)
  }

  lemma ClientCommutesWithHost(cfg: Config, s: System, a: Event, b: Event)
    requires s.Valid() && Enabled(cfg, s, a) && Enabled(cfg, s, b)
    requires OfClient(a) && OfHost(b)
    ensures Commute(cfg, s, a, b)
  {
  }

  lemma ClientCommutesWithDom(cfg: Config, s: System, a: Event, b: Event)
    requires s.Valid() && Enabled(cfg, s, a) && Enabled(cfg, s, b)
    requires OfClient(a) && OfDom(b)
    ensures Commute(cfg, s, a, b)
  {
  }

  lemma DomCommutesWithHost(cfg: Config, s: System, a: Event, b: Event)
    requires s.Valid() && Enabled(cfg, s, a) && Enabled(cfg, s, b)
    requires OfDom(a) && OfHost(b)
    ensures Commute(cfg, s, a, b)
  {
  }

  /** One program has at most one step to take, but for its two outputs. */
  lemma SameProgram(cfg: Config, s: System, a: Event, b: Event)
    requires s.Valid() && Enabled(cfg, s, a) && Enabled(cfg, s, b) && a != b
    requires (OfClient(a) && OfClient(b)) || (OfHost(a) && OfHost(b)) || (OfDom(a) && OfDom(b))
    ensures Commute(cfg, s, a, b)
  {
    assert (a.HostSends? && b.HostSendsDom?) || (a.HostSendsDom? && b.HostSends?);
  }

  lemma Diamond(cfg: Config, s: System, a: Event, b: Event)
    requires s.Valid() && Enabled(cfg, s, a) && Enabled(cfg, s, b) && a != b
    ensures Commute(cfg, s, a, b)
  {
    if OfClient(a) && OfHost(b) {
      ClientCommutesWithHost(cfg, s, a, b);
    } else if OfHost(a) && OfClient(b) {
      ClientCommutesWithHost(cfg, s, b, a);
    } else if OfClient(a) && OfDom(b) {
      ClientCommutesWithDom(cfg, s, a, b);
    } else if OfDom(a) && OfClient(b) {
      ClientCommutesWithDom(cfg, s, b, a);
    } else if OfDom(a) && OfHost(b) {
      DomCommutesWithHost(cfg, s, a, b);
    } else if OfHost(a) && OfDom(b) {
      DomCommutesWithHost(cfg, s, b, a);
    } else {
      SameProgram(cfg, s, a, b);
    }
  }

  /** A schedule from any state on. */
  function From(cfg: Config, s: System, schedule: seq<Event>): (r: System)
    requires s.Valid()
    ensures r.Valid()
    decreases |schedule|
  {
    if schedule == [] then s else From(cfg, Step(cfg, s, schedule[0]), schedule[1..])
  }

  lemma {:induction false} FromAfter(cfg: Config, first: seq<Event>, next: seq<Event>)
    ensures From(cfg, After(cfg, first), next) == After(cfg, first + next)
    decreases |next|
  {
    if next == [] {
      assert first + next == first;
    } else {
      AfterOneMore(cfg, first, next[0]);
      assert (first + [next[0]]) + next[1..] == first + next;
      FromAfter(cfg, first + [next[0]], next[1..]);
    }
  }

  /** A possible step can be put first in any schedule that ends with nothing more to do. */
  lemma {:induction false} PutFirst(cfg: Config, s: System, ev: Event, schedule: seq<Event>) returns (rest: seq<Event>)
    requires s.Valid() && Enabled(cfg, s, ev) && Stuck(cfg, From(cfg, s, schedule))
    ensures From(cfg, Step(cfg, s, ev), rest) == From(cfg, s, schedule)
    decreases |schedule|
  {
    if schedule == [] {
      assert false;
    } else if schedule[0] == ev {
      rest := schedule[1..];
    } else if Enabled(cfg, s, schedule[0]) {
      Diamond(cfg, s, ev, schedule[0]);
      var later := PutFirst(cfg, Step(cfg, s, schedule[0]), ev, schedule[1..]);
      rest := [schedule[0]] + later;
    } else {
      rest := PutFirst(cfg, s, ev, schedule[1..]);
    }
  }

  lemma {:induction false} StuckStays(cfg: Config, s: System, schedule: seq<Event>)
    requires s.Valid() && Stuck(cfg, s)
    ensures From(cfg, s, schedule) == s
  {
    if schedule != [] {
      StuckStays(cfg, s, schedule[1..]);
    }
  }

  lemma {:induction false} OneEnd(cfg: Config, s: System, a: seq<Event>, b: seq<Event>)
    requires s.Valid() && Stuck(cfg, From(cfg, s, a)) && Stuck(cfg, From(cfg, s, b))
    ensures From(cfg, s, a) == From(cfg, s, b)
    decreases |a|
  {
    if a == [] {
      StuckStays(cfg, s, b);
    } else if Enabled(cfg, s, a[0]) {
      var rest := PutFirst(cfg, s, a[0], b);
      OneEnd(cfg, Step(cfg, s, a[0]), a[1..], rest);
    } else {
      OneEnd(cfg, s, a[1..], b);
    }
  }

  /** Keys, nonces, answers and outcomes determine how a session ends, to the last byte; how
      the programs are scheduled does not. */
  lemma EndIsDetermined(cfg: Config, a: seq<Event>, b: seq<Event>)
    requires Stuck(cfg, After(cfg, a)) && Stuck(cfg, After(cfg, b))
    ensures After(cfg, a) == After(cfg, b)
  {
    FromAfter(cfg, [], a);
    FromAfter(cfg, [], b);
    assert [] + a == a && [] + b == b;
    OneEnd(cfg, Init(cfg), a, b);
  }

  /** Every schedule can be continued to that end. */
  lemma {:induction false} EndIsReached(cfg: Config, schedule: seq<Event>) returns (rest: seq<Event>)
    requires cfg.Valid()
    ensures Stuck(cfg, After(cfg, schedule + rest))
    decreases Liveness.Work(cfg, After(cfg, schedule))
  {
    if Stuck(cfg, After(cfg, schedule)) {
      rest := [];
      assert schedule + rest == schedule;
    } else {
      var ev := OneMoreStep(cfg, schedule);
      var later := EndIsReached(cfg, schedule + [ev]);
      rest := [ev] + later;
      Regroup(schedule, ev, later);
    }
  }

  lemma Regroup(schedule: seq<Event>, ev: Event, later: seq<Event>)
    ensures (schedule + [ev]) + later == schedule + ([ev] + later)
  {
  }

  lemma OneMoreStep(cfg: Config, schedule: seq<Event>) returns (ev: Event)
    requires cfg.Valid() && !Stuck(cfg, After(cfg, schedule))
    ensures Liveness.Work(cfg, After(cfg, schedule + [ev])) < Liveness.Work(cfg, After(cfg, schedule))
  {
    var s := After(cfg, schedule);
    ev :| Enabled(cfg, s, ev);
    Invariant.InvAlways(cfg, schedule);
    Liveness.StepWorks(cfg, s, ev);
    AfterOneMore(cfg, schedule, ev);
  }

  lemma AfterOneMore(cfg: Config, schedule: seq<Event>, ev: Event)
    ensures After(cfg, schedule + [ev]) == Step(cfg, After(cfg, schedule), ev)
  {
    assert (schedule + [ev])[..|schedule + [ev]| - 1] == schedule;
  }
}
