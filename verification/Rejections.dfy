/** Answers that a prompt rejects leave no trace: the session is the one in which they were
    never given. */
module Rejections {
  import opened System
  import opened HostMachine
  import opened Primitives
  import Confluence

  predicate Rejected(m: Mode, a: Answer) {
    a.Typed? && Accept(m, a).None?
  }

  /** The answers without the rejected ones. */
  function Kept(m: Mode, answers: seq<Answer>): seq<Answer> {
    if answers == [] then []
    else
      var last := answers[|answers| - 1];
      Kept(m, answers[..|answers| - 1]) + if Rejected(m, last) then [] else [last]
  }

  lemma {:induction false} KeptSplits(m: Mode, a: seq<Answer>, b: seq<Answer>)
    ensures Kept(m, a + b) == Kept(m, a) + Kept(m, b)
  {
    if b == [] {
      assert a + b == a;
    } else {
      var n := |b| - 1;
      assert (a + b)[..|a + b| - 1] == a + b[..n];
      KeptSplits(m, a, b[..n]);
    }
  }

  lemma KeptOneMore(m: Mode, answers: seq<Answer>, asked: nat)
    requires asked < |answers|
    ensures Kept(m, answers[..asked + 1])
         == Kept(m, answers[..asked]) + if Rejected(m, answers[asked]) then [] else [answers[asked]]
  {
    assert answers[..asked + 1][..asked] == answers[..asked];
  }

  /** An answer that is kept is found after those kept before it. */
  lemma KeptAt(m: Mode, answers: seq<Answer>, asked: nat)
    requires asked < |answers|
    ensures |Kept(m, answers[..asked])| <= |Kept(m, answers)|
    ensures
      if Rejected(m, answers[asked]) then Kept(m, answers[..asked + 1]) == Kept(m, answers[..asked])
      else
        && |Kept(m, answers[..asked])| < |Kept(m, answers)|
        && Kept(m, answers)[|Kept(m, answers[..asked])|] == answers[asked]
        && Kept(m, answers[..asked + 1]) == Kept(m, answers[..asked]) + [answers[asked]]
  {
    KeptOneMore(m, answers, asked);
    var here, after := answers[..asked + 1], answers[asked + 1..];
    assert answers == here + after;
    KeptSplits(m, here, after);
  }

  function KeptCount(e: HostEnv, asked: nat): nat {
    if asked <= |e.answers| then |Kept(e.mode, e.answers[..asked])| else 0
  }

  /** The same world, but nothing that would be rejected is ever typed. */
  function Tidied(e: HostEnv): HostEnv {
    e.(answers := Kept(e.mode, e.answers))
  }

  function TidiedConfig(cfg: Config): Config {
    cfg.(he := Tidied(cfg.he))
  }

  // ----- Two hosts that differ in what was rejected -----

  predicate SameDeliveries(e: HostEnv, ds: seq<Delivery>, es: seq<Delivery>) {
    && |ds| == |es|
    && forall i | 0 <= i < |ds| :: es[i] == ds[i].(asked := KeptCount(e, ds[i].asked))
  }

  predicate SameHost(e: HostEnv, h: Host, k: Host) {
    && h.asked <= |e.answers|
    && k == h.(asked := KeptCount(e, h.asked), delivered := k.delivered)
    && SameDeliveries(e, h.delivered, k.delivered)
  }

  /** Everything is the same but the count of answers. */
  predicate Alike(cfg: Config, s: System, t: System) {
    t == s.(h := t.h) && SameHost(cfg.he, s.h, t.h)
  }

  lemma MoreDeliveries(e: HostEnv, ds: seq<Delivery>, es: seq<Delivery>, d: Delivery)
    requires SameDeliveries(e, ds, es)
    ensures SameDeliveries(e, ds + [d], es + [d.(asked := KeptCount(e, d.asked))])
  {
  }

  /** The same verdict and the same next step, but for the counts. */
  predicate Counted(h: Host, k: Host, h': Host, k': Host, d: Delivery) {
    && h'.asked == h.asked && k' == h'.(asked := k.asked, delivered := k'.delivered)
    && if h'.delivered == h.delivered then k'.delivered == k.delivered
       else h'.delivered == h.delivered + [d] && k'.delivered == k.delivered + [d.(asked := k.asked)]
  }

  lemma UnlockTried(p: Primitives, e: HostEnv, h: Host, k: Host)
    requires |h.got| == 32 && k == h.(asked := k.asked, delivered := k.delivered)
    requires e.mode.Unlock? && !e.spawnFails(h.tries)
    ensures Counted(h, k, ActKeyfile(p, e, h), ActKeyfile(p, Tidied(e), k), InHand(p, e, h))
  {
    var d := InHand(p, e, h);
    match e.unlock(h.tries, d.keyfile)
    case PipeFailed => assert ActKeyfile(p, e, h).delivered == h.delivered + [d];
    case WaitFailed => assert ActKeyfile(p, e, h).delivered == h.delivered + [d];
    case Killed => assert ActKeyfile(p, e, h).delivered == h.delivered + [d];
    case Exited(code) => assert ActKeyfile(p, e, h).delivered == h.delivered + [d];
  }

  lemma UnlockNotStarted(p: Primitives, e: HostEnv, h: Host, k: Host)
    requires |h.got| == 32 && k == h.(asked := k.asked, delivered := k.delivered)
    requires e.mode.Unlock? && e.spawnFails(h.tries)
    ensures Counted(h, k, ActKeyfile(p, e, h), ActKeyfile(p, Tidied(e), k), InHand(p, e, h))
  {
  }

  lemma CountedIsSame(e: HostEnv, h: Host, k: Host, h': Host, k': Host, d: Delivery)
    requires SameHost(e, h, k) && Counted(h, k, h', k', d) && d.asked == h.asked
    ensures SameHost(e, h', k')
  {
    MoreDeliveries(e, h.delivered, k.delivered, d);
  }

  lemma UnlockAlike(p: Primitives, e: HostEnv, h: Host, k: Host)
    requires |h.got| == 32 && SameHost(e, h, k) && e.mode.Unlock?
    ensures SameHost(e, ActKeyfile(p, e, h), ActKeyfile(p, Tidied(e), k))
  {
    if e.spawnFails(h.tries) {
      UnlockNotStarted(p, e, h, k);
    } else {
      UnlockTried(p, e, h, k);
    }
    CountedIsSame(e, h, k, ActKeyfile(p, e, h), ActKeyfile(p, Tidied(e), k), InHand(p, e, h));
  }

  lemma EnrolAlike(p: Primitives, e: HostEnv, h: Host, k: Host)
    requires |h.got| == 32 && SameHost(e, h, k) && !e.mode.Unlock?
    ensures SameHost(e, ActKeyfile(p, e, h), ActKeyfile(p, Tidied(e), k))
  {
    MoreDeliveries(e, h.delivered, k.delivered, InHand(p, e, h));
  }

  lemma KeyfileAlike(p: Primitives, e: HostEnv, h: Host, k: Host)
    requires |h.got| == 32 && SameHost(e, h, k)
    ensures SameHost(e, ActKeyfile(p, e, h), ActKeyfile(p, Tidied(e), k))
  {
    if e.mode.Unlock? {
      UnlockAlike(p, e, h, k);
    } else {
      EnrolAlike(p, e, h, k);
    }
  }

  lemma RejectionAlike(p: Primitives, e: HostEnv, h: Host, k: Host)
    requires SameHost(e, h, k) && h.asked < |e.answers| && CanAct(e, h) && h.pc.Ask?
    requires Rejected(e.mode, e.answers[h.asked])
    ensures SameHost(e, Act(p, e, h), k)
  {
    KeptAt(e.mode, e.answers, h.asked);
    assert Act(p, e, h) == h.(asked := h.asked + 1);
  }

  lemma AnswerAlike(p: Primitives, e: HostEnv, h: Host, k: Host)
    requires SameHost(e, h, k) && h.asked < |e.answers| && CanAct(e, h) && h.pc.Ask?
    requires !Rejected(e.mode, e.answers[h.asked])
    ensures CanAct(Tidied(e), k) && SameHost(e, Act(p, e, h), Act(p, Tidied(e), k))
  {
    KeptAt(e.mode, e.answers, h.asked);
    AnswerCounts(p, e, h, k);
  }

  lemma AnswerCounts(p: Primitives, e: HostEnv, h: Host, k: Host)
    requires k == Counting(h, k) && CanAct(e, h) && h.pc.Ask? && CanAct(Tidied(e), k)
    requires Tidied(e).answers[k.asked] == e.answers[h.asked]
    ensures
      var h' := Act(p, e, h);
      && h'.asked == h.asked + 1 && h'.delivered == h.delivered
      && Act(p, Tidied(e), k) == h'.(asked := k.asked + 1, delivered := k.delivered)
  {
  }

  /** The host `h`, with the answers counted as `k` counts them. */
  function Counting(h: Host, k: Host): Host {
    h.(asked := k.asked, delivered := k.delivered)
  }

  lemma CountingIsSame(e: HostEnv, h: Host, h': Host, k: Host)
    requires SameHost(e, h, k) && h'.asked == h.asked && h'.delivered == h.delivered
    ensures SameHost(e, h', Counting(h', k))
  {
  }

  /** An action that asks and delivers nothing does not see the counts. */
  lemma HandshakeCounts(p: Primitives, e: HostEnv, h: Host, k: Host)
    requires k == Counting(h, k) && CanAct(e, h)
    requires h.pc.ReadNonce? || h.pc.ReadEncNonce? || h.pc.ReadTkeyPub? || h.pc.DomStatus? || h.pc.DomSig?
    ensures CanAct(Tidied(e), k) && Act(p, Tidied(e), k) == Counting(Act(p, e, h), k)
    ensures Act(p, e, h).asked == h.asked && Act(p, e, h).delivered == h.delivered
  {
  }

  lemma VerdictCounts(p: Primitives, e: HostEnv, h: Host, k: Host)
    requires k == Counting(h, k) && CanAct(e, h) && h.pc.AuthReply?
    ensures CanAct(Tidied(e), k) && Act(p, Tidied(e), k) == Counting(Act(p, e, h), k)
    ensures Act(p, e, h).asked == h.asked && Act(p, e, h).delivered == h.delivered
  {
    var a := ActAuthReply(e, h);
    assert ActAuthReply(Tidied(e), k) == Counting(a, k) && a.asked == h.asked && a.delivered == h.delivered;
  }

  lemma RepliesCount(p: Primitives, e: HostEnv, h: Host, k: Host)
    requires k == Counting(h, k) && CanAct(e, h) && (h.pc.Ready? || h.pc.HashReply? || h.pc.DomResult?)
    ensures CanAct(Tidied(e), k) && Act(p, Tidied(e), k) == Counting(Act(p, e, h), k)
    ensures Act(p, e, h).asked == h.asked && Act(p, e, h).delivered == h.delivered
  {
  }

  lemma TalkAlike(p: Primitives, e: HostEnv, h: Host, k: Host)
    requires SameHost(e, h, k) && CanAct(e, h) && !h.pc.Ask? && !h.pc.ReadKeyfile?
    ensures CanAct(Tidied(e), k) && SameHost(e, Act(p, e, h), Act(p, Tidied(e), k))
  {
    if h.pc.AuthReply? {
      VerdictCounts(p, e, h, k);
    } else if h.pc.Ready? || h.pc.HashReply? || h.pc.DomResult? {
      RepliesCount(p, e, h, k);
    } else {
      HandshakeCounts(p, e, h, k);
    }
    CountingIsSame(e, h, Act(p, e, h), k);
  }

  /** Whether the step is the rejection of an answer. */
  predicate Rejects(cfg: Config, s: System, ev: Event) {
    ev.HostActs? && CanAct(cfg.he, s.h) && s.h.pc.Ask? && Rejected(cfg.he.mode, cfg.he.answers[s.h.asked])
  }

  lemma HostActsAlike(cfg: Config, s: System, t: System)
    requires s.Valid() && t.Valid() && Alike(cfg, s, t) && CanAct(cfg.he, s.h)
    ensures
      if Rejects(cfg, s, HostActs) then Alike(cfg, Step(cfg, s, HostActs), t)
      else Alike(cfg, Step(cfg, s, HostActs), Step(TidiedConfig(cfg), t, HostActs))
  {
    if s.h.pc.Ask? {
      if Rejects(cfg, s, HostActs) {
        RejectionAlike(cfg.p, cfg.he, s.h, t.h);
      } else {
        AnswerAlike(cfg.p, cfg.he, s.h, t.h);
      }
    } else if s.h.pc.ReadKeyfile? {
      KeyfileAlike(cfg.p, cfg.he, s.h, t.h);
    } else {
      TalkAlike(cfg.p, cfg.he, s.h, t.h);
    }
  }

  lemma OthersAlike(cfg: Config, s: System, t: System, ev: Event)
    requires s.Valid() && t.Valid() && Alike(cfg, s, t) && !ev.HostActs?
    ensures Enabled(cfg, s, ev) <==> Enabled(TidiedConfig(cfg), t, ev)
    ensures Alike(cfg, Step(cfg, s, ev), Step(TidiedConfig(cfg), t, ev))
  {
  }

  lemma NoSpuriousPrompt(cfg: Config, s: System, t: System)
    requires Alike(cfg, s, t)
    ensures CanAct(Tidied(cfg.he), t.h) ==> CanAct(cfg.he, s.h)
  {
    if s.h.asked == |cfg.he.answers| {
      assert cfg.he.answers[..s.h.asked] == cfg.he.answers;
    }
  }

  lemma StepAlike(cfg: Config, s: System, t: System, ev: Event)
    requires s.Valid() && t.Valid() && Alike(cfg, s, t)
    ensures Alike(cfg, Step(cfg, s, ev), if Rejects(cfg, s, ev) then t else Step(TidiedConfig(cfg), t, ev))
  {
    if !ev.HostActs? {
      OthersAlike(cfg, s, t, ev);
    } else if CanAct(cfg.he, s.h) {
      HostActsAlike(cfg, s, t);
    } else {
      NoSpuriousPrompt(cfg, s, t);
    }
  }

  /** Every run has a run without the rejected answers beside it. */
  lemma {:induction false} RunAlike(cfg: Config, schedule: seq<Event>) returns (tidy: seq<Event>)
    ensures Alike(cfg, After(cfg, schedule), After(TidiedConfig(cfg), tidy))
  {
    if schedule == [] {
      tidy := [];
    } else {
      var earlier, ev := schedule[..|schedule| - 1], schedule[|schedule| - 1];
      var s := After(cfg, earlier);
      tidy := RunAlike(cfg, earlier);
      StepAlike(cfg, s, After(TidiedConfig(cfg), tidy), ev);
      if !Rejects(cfg, s, ev) {
        Confluence.AfterOneMore(TidiedConfig(cfg), tidy, ev);
        tidy := tidy + [ev];
      }
    }
  }

  lemma StuckAlike(cfg: Config, s: System, t: System)
    requires s.Valid() && t.Valid() && Alike(cfg, s, t) && Stuck(cfg, s)
    ensures Stuck(TidiedConfig(cfg), t)
  {
    forall ev ensures !Enabled(TidiedConfig(cfg), t, ev) {
      assert !Enabled(cfg, s, ev);
      if ev.HostActs? {
        NoSpuriousPrompt(cfg, s, t);
      } else {
        OthersAlike(cfg, s, t, ev);
      }
    }
  }

  /** However the two sessions are scheduled, once settled they are alike, with the same bytes
      in all streams, the same commands and the same outcome. */
  lemma RejectionsLeaveNoTrace(cfg: Config, a: seq<Event>, b: seq<Event>)
    requires Stuck(cfg, After(cfg, a)) && Stuck(TidiedConfig(cfg), After(TidiedConfig(cfg), b))
    ensures Alike(cfg, After(cfg, a), After(TidiedConfig(cfg), b))
  {
    var tidy := RunAlike(cfg, a);
    StuckAlike(cfg, After(cfg, a), After(TidiedConfig(cfg), tidy));
    Confluence.EndIsDetermined(TidiedConfig(cfg), tidy, b);
  }
}
