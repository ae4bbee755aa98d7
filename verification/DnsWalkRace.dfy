/**
 Which race rule answers. In every run, under any timing and with exchanges
 completing in the middle of a sweep, an answer given by a race rule comes from
 the lowest rule armed when its sweep began that was found ready with an answer.
 */
module DnsWalkRace {
  import opened DnsWalk
  import opened DnsWalkBounds
  import opened DnsWalkLoop

  predicate Sweeping(pc: Control) {
    pc.WalkSweep? || pc.ResumeSweep?
  }

  /** The step of this state looks at an armed rule. */
  predicate LooksAt(s: State, l: Label, a: Armed) {
    l.Main? && Sweeping(s.pc) && s.pc.at < |s.walk.armed| && s.walk.armed[s.pc.at] == a
  }

  /** Some step in this stretch looked at the rule, which was not ready or had
      no answer. */
  ghost predicate PassedOver(cfg: Config, states: seq<State>, labels: seq<Label>, b: nat, i: nat, a: Armed)
    requires |states| == |labels| + 1
  {
    exists m :: b <= m < i && m < |labels| && LooksAt(states[m], labels[m], a) && !Commits(cfg, states[m].walk, a)
  }

  /** The sweep has yet to come to this rule. */
  ghost predicate Ahead(s: State, a: Armed) {
    Sweeping(s.pc) && exists p :: s.pc.at <= p < |s.walk.armed| && s.walk.armed[p] == a
  }

  /** A sweep goes on from state b to state i. */
  ghost predicate OneSweep(states: seq<State>, b: nat, i: nat) {
    && 0 < b <= i < |states| && !Sweeping(states[b - 1].pc)
    && (forall k :: b <= k <= i ==> Sweeping(states[k].pc))
    && states[b].pc.at == 0
  }

  lemma SweepBegins(cfg: Config, s: State, l: Label, t: State)
    requires Step(cfg, s, l, t) && !Sweeping(s.pc) && Sweeping(t.pc)
    ensures t.pc.at == 0
  {
    if l.Main? && (s.pc.WalkRule? || s.pc.WalkTest?) {
      NoSweepByAction(cfg, s.walk);
    }
  }

  lemma NoSweepByAction(cfg: Config, w: Walk)
    ensures !Sweeping(WalkRuleStep(cfg, w).pc)
    ensures Sweeping(WalkTestStep(cfg, w).pc) ==> WalkTestStep(cfg, w).pc == WalkSweep(0)
  {}

  /** A step inside a sweep passes over the rule it looks at and no other. */
  lemma SweepStep(cfg: Config, s: State, l: Label, t: State, a: Armed)
    requires Step(cfg, s, l, t) && Sweeping(s.pc) && Sweeping(t.pc) && Ahead(s, a)
    ensures Ahead(t, a) || (LooksAt(s, l, a) && !Commits(cfg, s.walk, a))
  {
    var p :| s.pc.at <= p < |s.walk.armed| && s.walk.armed[p] == a;
    if l.Main? && p > s.pc.at {
      if IsReady(s.walk, s.walk.armed[s.pc.at]) {
        assert t.walk.armed == Without(s.walk.armed, s.pc.at);
        assert t.walk.armed[p - 1] == a;
      }
    }
  }

  lemma SweepKeeps(cfg: Config, s: State, l: Label, t: State)
    requires Step(cfg, s, l, t) && Sweeping(s.pc) && Sweeping(t.pc)
    ensures forall a :: a in t.walk.armed ==> a in s.walk.armed
  {}

  /** Of the rules armed when a sweep began, each is still ahead or was passed over. */
  lemma {:induction false} SweepHistory(cfg: Config, states: seq<State>, labels: seq<Label>, i: nat) returns (b: nat)
    requires Run(cfg, states, labels) && i < |states| && Sweeping(states[i].pc)
    ensures OneSweep(states, b, i)
    ensures forall a :: a in states[b].walk.armed ==> Ahead(states[i], a) || PassedOver(cfg, states, labels, b, i, a)
    ensures forall a :: a in states[i].walk.armed ==> a in states[b].walk.armed
  {
    assert i > 0;
    assert Step(cfg, states[i - 1], labels[i - 1], states[i]);
    if !Sweeping(states[i - 1].pc) {
      b := i;
      SweepBegins(cfg, states[i - 1], labels[i - 1], states[i]);
    } else {
      b := SweepHistory(cfg, states, labels, i - 1);
      forall a | a in states[b].walk.armed ensures Ahead(states[i], a) || PassedOver(cfg, states, labels, b, i, a) {
        HistoryStep(cfg, states, labels, b, i, a);
      }
      SweepKeeps(cfg, states[i - 1], labels[i - 1], states[i]);
    }
  }

  lemma HistoryStep(cfg: Config, states: seq<State>, labels: seq<Label>, b: nat, i: nat, a: Armed)
    requires |states| == |labels| + 1 && b < i < |states| && Sweeping(states[i - 1].pc) && Sweeping(states[i].pc)
    requires Step(cfg, states[i - 1], labels[i - 1], states[i])
    requires Ahead(states[i - 1], a) || PassedOver(cfg, states, labels, b, i - 1, a)
    ensures Ahead(states[i], a) || PassedOver(cfg, states, labels, b, i, a)
  {
    if Ahead(states[i - 1], a) {
      SweepStep(cfg, states[i - 1], labels[i - 1], states[i], a);
    }
  }

  /** The step commits the rule it looks at. */
  ghost predicate CommitsNow(cfg: Config, s: State, l: Label, j: nat) {
    && l.Main? && Sweeping(s.pc) && s.pc.at < |s.walk.armed|
    && s.walk.armed[s.pc.at].rule == j && Commits(cfg, s.walk, s.walk.armed[s.pc.at])
  }

  /** A sweep from b to the committing state, in which every armed rule of lower
      index was looked at and was not ready or had no answer. */
  ghost predicate CommitsLowest(cfg: Config, states: seq<State>, labels: seq<Label>, b: nat, i: nat, j: nat)
    requires |states| == |labels| + 1
  {
    && i < |labels| && OneSweep(states, b, i) && CommitsNow(cfg, states[i], labels[i], j)
    && (exists a :: a in states[b].walk.armed && a.rule == j)
    && (forall a :: a in states[b].walk.armed && a.rule < j ==> PassedOver(cfg, states, labels, b, i, a))
  }

  lemma RaceCommitsLowest(cfg: Config, states: seq<State>, labels: seq<Label>, i: nat, j: nat) returns (b: nat)
    requires Run(cfg, states, labels) && i < |labels| && CommitsNow(cfg, states[i], labels[i], j)
    ensures CommitsLowest(cfg, states, labels, b, i, j)
  {
    b := SweepHistory(cfg, states, labels, i);
    RunShape(cfg, states, labels, i);
    var s := states[i];
    assert s.walk.armed[s.pc.at] in s.walk.armed;
    forall a | a in states[b].walk.armed && a.rule < j ensures PassedOver(cfg, states, labels, b, i, a) {
      if Ahead(s, a) {
        NotAhead(s.walk, s.pc.at, a, j);
      }
    }
  }

  lemma NotAhead(w: Walk, at: nat, a: Armed, j: nat)
    requires ArmedShape(w.armed, w.index, |w.futures|) && at < |w.armed| && w.armed[at].rule == j && a.rule < j
    ensures forall p :: at <= p < |w.armed| ==> w.armed[p] != a
  {}

  // ----- every answer of a race rule comes from such a step

  /** The query or the answer of this state comes from race rule j. */
  predicate RaceOrigin(pc: Control, j: nat) {
    match pc
    case WaitReply(p) => p.origin == FromRace(j)
    case ResumeSettle(Ready(p)) => p.origin == FromRace(j)
    case ResumeSweep(Ready(p), _) => p.origin == FromRace(j)
    case ResumeCheck(Ready(p)) => p.origin == FromRace(j)
    case Finished(_, g) => g == FromRace(j)
    case _ => false
  }

  lemma ActionIsNoRace(cfg: Config, w: Walk, r: Rule, j: nat)
    ensures !RaceOrigin(MatchAndAct(cfg, w, r).pc, j)
  {}

  lemma WalkIsNoRace(cfg: Config, w: Walk, j: nat)
    ensures !RaceOrigin(WalkRuleStep(cfg, w).pc, j) && !RaceOrigin(WalkTestStep(cfg, w).pc, j)
  {
    if w.index < |cfg.rules| {
      ActionIsNoRace(cfg, w, cfg.rules[w.index], j);
    }
  }

  lemma SweepIsRace(cfg: Config, w: Walk, u: Suspension, at: nat, j: nat)
    ensures RaceOrigin(WalkSweepStep(cfg, w, at).pc, j) ==>
              at < |w.armed| && w.armed[at].rule == j && Commits(cfg, w, w.armed[at])
    ensures RaceOrigin(ResumeSweepStep(cfg, w, u, at).pc, j) && !RaceOrigin(ResumeSweep(u, at), j) ==>
              at < |w.armed| && w.armed[at].rule == j && Commits(cfg, w, w.armed[at])
  {}

  lemma NewRaceOrigin(cfg: Config, s: State, l: Label, t: State, j: nat)
    requires Step(cfg, s, l, t) && PcShape(s.walk, s.pc) && RaceOrigin(t.pc, j) && !RaceOrigin(s.pc, j)
    ensures CommitsNow(cfg, s, l, j)
  {
    if l.Main? {
      match s.pc
      case WalkRule => WalkIsNoRace(cfg, s.walk, j);
      case WalkTest => WalkIsNoRace(cfg, s.walk, j);
      case WalkSweep(at) => SweepIsRace(cfg, s.walk, Drain, at, j);
      case ResumeSweep(u, at) => SweepIsRace(cfg, s.walk, u, at, j);
      case _ =>
    }
  }

  /** The query or the answer is what the verdict says. */
  ghost predicate Gives(cfg: Config, pc: Control, j: nat, v: Verdict) {
    && (v.Commit? ==> v.pending.origin == FromRace(j) && v.pending.future.None?)
    && match pc
       case ResumeSettle(Ready(p)) => v == Commit(p)
       case ResumeSweep(Ready(p), _) => v == Commit(p)
       case ResumeCheck(Ready(p)) => v == Commit(p)
       case Finished(o, _) =>
         || v == Settled(o)
         || (v.Commit? && o == Query(v.pending.transport, v.pending.options,
                                     cfg.reply(j, v.pending.transport, v.pending.options)))
       case _ => false
  }

  lemma CommitGives(cfg: Config, s: State, l: Label, t: State, j: nat)
    requires Step(cfg, s, l, t) && CommitsNow(cfg, s, l, j)
    ensures Gives(cfg, t.pc, j, Judge(cfg, s.walk, s.walk.armed[s.pc.at]))
  {}

  lemma GivesStays(cfg: Config, s: State, l: Label, t: State, j: nat, v: Verdict)
    requires Step(cfg, s, l, t) && RaceOrigin(s.pc, j) && Gives(cfg, s.pc, j, v)
    requires !CommitsNow(cfg, s, l, j) && RaceOrigin(t.pc, j)
    ensures Gives(cfg, t.pc, j, v)
  {
    if l.Main? && s.pc.ResumeSweep? {
      var w, u, at := s.walk, s.pc.suspension, s.pc.at;
      if at < |w.armed| && Commits(cfg, w, w.armed[at]) {
        OtherOrigin(cfg, w, u, at, j);
      }
    }
  }

  lemma OtherOrigin(cfg: Config, w: Walk, u: Suspension, at: nat, j: nat)
    requires at < |w.armed| && Commits(cfg, w, w.armed[at]) && w.armed[at].rule != j
    ensures !RaceOrigin(ResumeSweepStep(cfg, w, u, at).pc, j)
  {}

  /** Whenever a race rule answers, its sweep found it ready with that answer, and
      found every armed rule of lower index not ready or without an answer. */
  lemma {:induction false} RaceAnswerIsLowest(cfg: Config, states: seq<State>, labels: seq<Label>, i: nat, j: nat)
    returns (b: nat, k: nat)
    requires Run(cfg, states, labels) && i < |states| && RaceOrigin(states[i].pc, j)
    ensures k < i && CommitsLowest(cfg, states, labels, b, k, j)
    ensures Gives(cfg, states[i].pc, j, Judge(cfg, states[k].walk, states[k].walk.armed[states[k].pc.at]))
  {
    assert i > 0;
    var s, l, t := states[i - 1], labels[i - 1], states[i];
    assert Step(cfg, s, l, t);
    if !CommitsNow(cfg, s, l, j) && RaceOrigin(s.pc, j) {
      b, k := RaceAnswerIsLowest(cfg, states, labels, i - 1, j);
      GivesStays(cfg, s, l, t, j, Judge(cfg, states[k].walk, states[k].walk.armed[states[k].pc.at]));
    } else {
      k := i - 1;
      RunShape(cfg, states, labels, k);
      if !CommitsNow(cfg, s, l, j) {
        NewRaceOrigin(cfg, s, l, t, j);
      }
      CommitGives(cfg, s, l, t, j);
      b := RaceCommitsLowest(cfg, states, labels, k, j);
    }
  }
}
