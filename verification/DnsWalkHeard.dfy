/**
 No race rule is passed by unheard. In every run, whatever the timing, the
 ordinary walk answers only after each race rule before the answering rule was
 looked at with all it reads resolved, and had nothing to say.
 */
module DnsWalkHeard {
  import opened Common
  import opened DnsWalk
  import opened DnsWalkMeaning
  import opened DnsWalkBounds
  import opened DnsWalkCorrect
  import opened DnsWalkTiming
  import opened DnsWalkRace

  /** The request was decided by a race rule, or given up. */
  predicate Raced(pc: Control) {
    match pc
    case WaitReply(p) => p.origin.FromRace?
    case ResumeSettle(Ready(p)) => p.origin.FromRace?
    case ResumeSweep(Ready(p), _) => p.origin.FromRace?
    case ResumeCheck(Ready(p)) => p.origin.FromRace?
    case Finished(_, g) => g.FromRace? || g.GaveUp?
    case _ => false
  }

  /** The rule of the ordinary walk that gives the query or the answer. */
  function Ordinary(cfg: Config, pc: Control): Option<nat> {
    match pc
    case WaitReply(p) => OrdinaryOrigin(cfg, p.origin)
    case ResumeSettle(Ready(p)) => OrdinaryOrigin(cfg, p.origin)
    case ResumeSweep(Ready(p), _) => OrdinaryOrigin(cfg, p.origin)
    case ResumeCheck(Ready(p)) => OrdinaryOrigin(cfg, p.origin)
    case Finished(_, g) => OrdinaryOrigin(cfg, g)
    case _ => None
  }

  function OrdinaryOrigin(cfg: Config, g: Origin): Option<nat> {
    match g
    case FromRule(i) => Some(i)
    case FromDefault => Some(|cfg.rules|)
    case _ => None
  }

  /** Everything the parked rule reads is resolved. */
  ghost predicate BoundDone(cfg: Config, w: Walk, a: Armed) {
    && a.rule < |cfg.rules|
    && (a.anonymous.Some? ==> IsDone(w, a.anonymous.value))
    && forall t :: t in cfg.rules[a.rule].tags && t in w.named ==> IsDone(w, w.named[t])
  }

  /** This step looks at race rule j, which can see all it reads and has nothing to say. */
  ghost predicate Heard(cfg: Config, s: State, l: Label, j: nat) {
    && l.Main? && Sweeping(s.pc) && s.pc.at < |s.walk.armed|
    && var a := s.walk.armed[s.pc.at];
       a.rule == j && IsReady(s.walk, a) && BoundDone(cfg, s.walk, a) && Judge(cfg, s.walk, a).Miss?
  }

  ghost predicate HeardBefore(cfg: Config, states: seq<State>, labels: seq<Label>, i: nat, j: nat)
    requires |states| == |labels| + 1
  {
    exists m :: 0 <= m < i && m < |labels| && Heard(cfg, states[m], labels[m], j)
  }

  // ----- a parked rule waits for all it reads

  ghost predicate CoversBound(cfg: Config, w: Walk, a: Armed) {
    && a.rule < |cfg.rules|
    && (a.anonymous.Some? ==> Covers(w, a, a.anonymous.value))
    && forall t :: t in cfg.rules[a.rule].tags && t in w.named ==> Covers(w, a, w.named[t])
  }

  ghost predicate AllCover(cfg: Config, w: Walk) {
    forall p :: 0 <= p < |w.armed| ==> CoversBound(cfg, w, w.armed[p])
  }

  lemma ReadyIsBound(cfg: Config, w: Walk, a: Armed)
    requires CoversBound(cfg, w, a) && IsReady(w, a)
    ensures BoundDone(cfg, w, a)
  {}

  ghost predicate NamedMove(cfg: Config, w: Walk, v: Walk) {
    forall t :: t in v.named ==>
      (t in w.named && v.named[t] == w.named[t]) || (w.index < |cfg.rules| && Defines(cfg.rules[w.index], t))
  }

  lemma CoverStays(cfg: Config, w: Walk, v: Walk, a: Armed)
    requires CoversBound(cfg, w, a) && a.rule <= w.index && Accepted(cfg.rules)
    requires Carries(w.futures, v.futures) && NamedMove(cfg, w, v)
    ensures CoversBound(cfg, v, a)
  {}

  lemma ArmedCovers(cfg: Config, w: Walk, v: Walk)
    requires w.index < |cfg.rules| && RefShape(w.anonymous, w.named, w.terminal, |w.futures|)
    requires v.futures == w.futures && v.named == w.named
    ensures CoversBound(cfg, v, ArmedFor(w, cfg.rules[w.index]))
  {
    var r := cfg.rules[w.index];
    var a := ArmedFor(w, r);
    forall t | t in r.tags && t in v.named ensures Covers(v, a, v.named[t]) {
      if !IsDone(w, w.named[t]) {
        PendingCovers(w, r.tags, t);
      }
    }
  }

  /** Whatever stays parked still waits for all it reads. */
  lemma CoverSome(cfg: Config, w: Walk, v: Walk)
    requires AllCover(cfg, w) && ArmedShape(w.armed, w.index, |w.futures|) && Accepted(cfg.rules)
    requires Carries(w.futures, v.futures) && NamedMove(cfg, w, v) && forall p :: 0 <= p < |v.armed| ==> v.armed[p] in w.armed
    ensures AllCover(cfg, v)
  {
    forall p | 0 <= p < |v.armed| ensures CoversBound(cfg, v, v.armed[p]) {
      var q :| 0 <= q < |w.armed| && w.armed[q] == v.armed[p];
      assert ValidArmed(w.armed[q], w.index, |w.futures|);
      CoverStays(cfg, w, v, w.armed[q]);
    }
  }

  // ----- what a step does to the parked rules

  /** An action of the ordinary walk parks and drops nothing, and what it settles
      on it settles on with nothing parked. */
  ghost predicate Steady(cfg: Config, w: Walk, t: State) {
    && t.walk.armed == w.armed && (t.walk.index == w.index || t.walk.index == w.index + 1)
    && Carries(w.futures, t.walk.futures) && NamedMove(cfg, w, t.walk) && !Raced(t.pc) && !Sweeping(t.pc)
    && (Ordinary(cfg, t.pc).Some? ==> w.armed == [] && t.walk.index == w.index == Ordinary(cfg, t.pc).value)
  }

  lemma FinishSteady(cfg: Config, w: Walk, o: Outcome)
    requires w.armed == []
    ensures Steady(cfg, w, Finish(w, o, FromRule(w.index)))
  {}

  lemma EvaluateSteady(cfg: Config, w: Walk, a: Action)
    requires a.Evaluate? && w.index < |cfg.rules| && cfg.rules[w.index].action == a
    requires RefShape(w.anonymous, w.named, w.terminal, |w.futures|)
    ensures Steady(cfg, w, ActEvaluate(cfg, w, a))
  {
    BindFrame(w, a);
  }

  lemma RouteSteady(cfg: Config, w: Walk, a: Action)
    requires a.Route?
    ensures Steady(cfg, w, ActRoute(cfg, w, a))
  {}

  lemma RespondSteady(cfg: Config, w: Walk, r: Rule)
    ensures Steady(cfg, w, ActRespond(w, r))
  {
    if w.armed == [] {
      FinishSteady(cfg, w, TaggedAnswer(w, r.respondTag));
      FinishSteady(cfg, w, FutureAnswer(w, w.anonymous));
    }
  }

  lemma RejectSteady(cfg: Config, w: Walk, m: RejectMethod)
    ensures Steady(cfg, w, ActReject(w, m))
  {
    if w.armed == [] {
      FinishSteady(cfg, w, Refused);
      FinishSteady(cfg, w, Dropped);
    }
  }

  lemma ActSteady(cfg: Config, w: Walk, r: Rule)
    requires w.index < |cfg.rules| && cfg.rules[w.index] == r && RefShape(w.anonymous, w.named, w.terminal, |w.futures|)
    ensures Steady(cfg, w, Act(cfg, w, r))
  {
    match r.action
    case SetOptions(o) =>
    case Evaluate(_, _, _, _) => EvaluateSteady(cfg, w, r.action);
    case Respond => RespondSteady(cfg, w, r);
    case Route(_, _, _) => RouteSteady(cfg, w, r.action);
    case Reject(m) => RejectSteady(cfg, w, m);
    case Predefined(answer) => if w.armed == [] { FinishSteady(cfg, w, Canned(answer)); }
  }

  lemma MatchSteady(cfg: Config, w: Walk, r: Rule)
    requires w.index < |cfg.rules| && cfg.rules[w.index] == r && RefShape(w.anonymous, w.named, w.terminal, |w.futures|)
    ensures Steady(cfg, w, MatchAndAct(cfg, w, r))
  {
    ActSteady(cfg, w, r);
    assert Steady(cfg, w, Advance(w));
  }

  lemma EndSteady(cfg: Config, w: Walk)
    requires w.index == |cfg.rules|
    ensures Steady(cfg, w, EndOfRules(cfg, w))
  {}

  /** What the walk knows of race rule j: it is parked, or was just heard. */
  ghost predicate Known(cfg: Config, s: State, l: Label, t: State, j: nat) {
    IsArmed(t.walk.armed, j) || Heard(cfg, s, l, j) || Raced(t.pc)
  }

  /** A step keeps what is known of the rules passed, parks a race rule it
      passes, and settles on an ordinary answer only with nothing parked. */
  ghost predicate Keeps(cfg: Config, s: State, l: Label, t: State) {
    && AllCover(cfg, t.walk)
    && (forall j :: 0 <= j < |cfg.rules| && IsRace(cfg.rules[j]) && j < t.walk.index ==>
          (j < s.walk.index && !IsArmed(s.walk.armed, j)) || Known(cfg, s, l, t, j))
    && (Raced(s.pc) ==> Raced(t.pc))
    && (Ordinary(cfg, t.pc).Some? ==> t.walk.armed == [] && t.walk.index == Ordinary(cfg, t.pc).value)
    && s.walk.index <= t.walk.index
  }

  /** The facts of a state the steps rely on. */
  ghost predicate Ripe(cfg: Config, s: State) {
    && Shape(cfg, s) && TestsBindings(cfg, s) && AllCover(cfg, s.walk) && Accepted(cfg.rules)
    && (Ordinary(cfg, s.pc).Some? ==> s.walk.armed == [] && s.walk.index == Ordinary(cfg, s.pc).value)
  }

  lemma SteadyKeeps(cfg: Config, s: State, l: Label, t: State)
    requires Ripe(cfg, s) && Steady(cfg, s.walk, t) && !Raced(s.pc)
    requires t.walk.index == s.walk.index || (s.walk.index < |cfg.rules| && !IsRace(cfg.rules[s.walk.index]))
    ensures Keeps(cfg, s, l, t)
  {
    CoverSome(cfg, s.walk, t.walk);
  }

  lemma ParkKeeps(cfg: Config, s: State, t: State)
    requires Ripe(cfg, s) && s.pc.WalkTest? && s.walk.index < |cfg.rules| && cfg.rules[s.walk.index].race
    requires t == ArmRule(s.walk, cfg.rules[s.walk.index])
    ensures Keeps(cfg, s, Main, t)
  {
    var w, v, a := s.walk, t.walk, ArmedFor(s.walk, cfg.rules[s.walk.index]);
    ArmedCovers(cfg, w, v);
    ParkCovers(cfg, w, v, a);
    forall j | 0 <= j < |cfg.rules| && IsRace(cfg.rules[j]) && j < v.index && (j < w.index ==> IsArmed(w.armed, j))
      ensures IsArmed(v.armed, j)
    {
      ParkedNow(w.armed, a, w.index, j);
    }
  }

  lemma ParkCovers(cfg: Config, w: Walk, v: Walk, a: Armed)
    requires AllCover(cfg, w) && ArmedShape(w.armed, w.index, |w.futures|) && Accepted(cfg.rules)
    requires v.armed == w.armed + [a] && v.futures == w.futures && v.named == w.named && CoversBound(cfg, v, a)
    ensures AllCover(cfg, v)
  {
    forall p | 0 <= p < |v.armed| ensures CoversBound(cfg, v, v.armed[p]) {
      if p < |w.armed| {
        assert ValidArmed(w.armed[p], w.index, |w.futures|);
        CoverStays(cfg, w, v, w.armed[p]);
      }
    }
  }

  lemma ParkedNow(armed: seq<Armed>, a: Armed, index: nat, j: nat)
    requires a.rule == index && j <= index && (j < index ==> IsArmed(armed, j))
    ensures IsArmed(armed + [a], j)
  {
    var longer := armed + [a];
    if j == index {
      assert longer[|armed|].rule == j;
    } else {
      var p :| 0 <= p < |armed| && armed[p].rule == j;
      assert longer[p].rule == j;
    }
  }

  lemma RuleKeeps(cfg: Config, s: State)
    requires Ripe(cfg, s) && s.pc.WalkRule?
    ensures Keeps(cfg, s, Main, WalkRuleStep(cfg, s.walk))
  {
    var w := s.walk;
    SettleProgress(w);
    if w.index >= |cfg.rules| {
      EndSteady(cfg, w);
    } else if HasBindings(cfg.rules[w.index]) {
      assert Steady(cfg, w, WalkRuleStep(cfg, w));
    } else {
      MatchSteady(cfg, w, cfg.rules[w.index]);
    }
    SteadyKeeps(cfg, s, Main, WalkRuleStep(cfg, w));
  }

  lemma TestKeeps(cfg: Config, s: State)
    requires Ripe(cfg, s) && s.pc.WalkTest?
    ensures Keeps(cfg, s, Main, WalkTestStep(cfg, s.walk))
  {
    var w := s.walk;
    if w.index >= |cfg.rules| {
      EndSteady(cfg, w);
      SteadyKeeps(cfg, s, Main, WalkTestStep(cfg, w));
    } else if cfg.rules[w.index].race {
      ParkKeeps(cfg, s, WalkTestStep(cfg, w));
    } else {
      MatchSteady(cfg, w, cfg.rules[w.index]);
      assert Steady(cfg, w, WalkTestStep(cfg, w));
      SteadyKeeps(cfg, s, Main, WalkTestStep(cfg, w));
    }
  }

  /** Dropping the rule looked at keeps the others parked. */
  lemma DropKeeps(cfg: Config, s: State, t: State)
    requires Ripe(cfg, s) && Sweeping(s.pc) && s.pc.at < |s.walk.armed| && IsReady(s.walk, s.walk.armed[s.pc.at])
    requires Judge(cfg, s.walk, s.walk.armed[s.pc.at]).Miss?
    requires t.walk == Disarm(s.walk, s.pc.at) && Sweeping(t.pc) && (Raced(s.pc) ==> Raced(t.pc)) && Ordinary(cfg, t.pc).None?
    ensures Keeps(cfg, s, Main, t)
  {
    var w, at := s.walk, s.pc.at;
    CoverSome(cfg, w, t.walk);
    ReadyIsBound(cfg, w, w.armed[at]);
    forall j | 0 <= j < |cfg.rules| && IsArmed(w.armed, j) ensures IsArmed(t.walk.armed, j) || Heard(cfg, s, Main, j) {
      var p :| 0 <= p < |w.armed| && w.armed[p].rule == j;
      if p != at {
        assert t.walk.armed[if p < at then p else p - 1] == w.armed[p];
      }
    }
  }

  /** A committed rule decides the request. */
  lemma CommitKeeps(cfg: Config, s: State, t: State)
    requires Ripe(cfg, s) && Raced(t.pc) && t.walk.index == s.walk.index && Carries(s.walk.futures, t.walk.futures)
    requires t.walk.named == s.walk.named && forall p :: 0 <= p < |t.walk.armed| ==> t.walk.armed[p] in s.walk.armed
    ensures Keeps(cfg, s, Main, t)
  {
    CoverSome(cfg, s.walk, t.walk);
  }

  lemma SameKeeps(cfg: Config, s: State, l: Label, t: State)
    requires Ripe(cfg, s) && t.walk.index == s.walk.index && t.walk.armed == s.walk.armed && t.walk.named == s.walk.named
    requires Carries(s.walk.futures, t.walk.futures) && (Raced(s.pc) ==> Raced(t.pc))
    requires Ordinary(cfg, t.pc).Some? ==> Ordinary(cfg, t.pc) == Ordinary(cfg, s.pc)
    ensures Keeps(cfg, s, l, t)
  {
    CoverSome(cfg, s.walk, t.walk);
  }

  lemma WalkSweepKeeps(cfg: Config, s: State)
    requires Ripe(cfg, s) && s.pc.WalkSweep?
    ensures Keeps(cfg, s, Main, WalkSweepStep(cfg, s.walk, s.pc.at))
  {
    var w, at := s.walk, s.pc.at;
    var t := WalkSweepStep(cfg, w, at);
    if at < |w.armed| && IsReady(w, w.armed[at]) {
      if Judge(cfg, w, w.armed[at]).Miss? {
        DropKeeps(cfg, s, t);
      } else {
        WalkCommits(cfg, w, at);
        CommitKeeps(cfg, s, t);
      }
    } else {
      SameKeeps(cfg, s, Main, t);
    }
  }

  lemma WalkCommits(cfg: Config, w: Walk, at: nat)
    requires at < |w.armed| && IsReady(w, w.armed[at]) && !Judge(cfg, w, w.armed[at]).Miss?
    ensures var t := WalkSweepStep(cfg, w, at);
            && Raced(t.pc) && t.walk.index == w.index && t.walk.named == w.named && Carries(w.futures, t.walk.futures)
            && forall p :: 0 <= p < |t.walk.armed| ==> t.walk.armed[p] in w.armed
  {}

  lemma ResumeSweepKeeps(cfg: Config, s: State)
    requires Ripe(cfg, s) && s.pc.ResumeSweep?
    ensures Keeps(cfg, s, Main, ResumeSweepStep(cfg, s.walk, s.pc.suspension, s.pc.at))
  {
    var w, at := s.walk, s.pc.at;
    var t := ResumeSweepStep(cfg, w, s.pc.suspension, at);
    if at < |w.armed| && IsReady(w, w.armed[at]) {
      if Judge(cfg, w, w.armed[at]).Miss? {
        DropKeeps(cfg, s, t);
      } else {
        ResumeCommits(cfg, w, s.pc.suspension, at);
        CommitKeeps(cfg, s, t);
      }
    } else {
      SameKeeps(cfg, s, Main, t);
    }
  }

  lemma ResumeCommits(cfg: Config, w: Walk, u: Suspension, at: nat)
    requires at < |w.armed| && IsReady(w, w.armed[at]) && !Judge(cfg, w, w.armed[at]).Miss?
    ensures var t := ResumeSweepStep(cfg, w, u, at);
            && Raced(t.pc) && t.walk == Disarm(w, at).(futures := t.walk.futures) && Carries(w.futures, t.walk.futures)
  {}

  lemma PendingKeeps(cfg: Config, s: State, p: Pending)
    requires Ripe(cfg, s) && s.pc == ResumeCheck(Ready(p))
    ensures Keeps(cfg, s, Main, FinishPending(cfg, s.walk, p))
  {
    SameKeeps(cfg, s, Main, FinishPending(cfg, s.walk, p));
  }

  lemma ReplyKeeps(cfg: Config, s: State, p: Pending)
    requires Ripe(cfg, s) && s.pc == WaitReply(p) && p.future.Some?
    ensures Keeps(cfg, s, Main, WaitReplyStep(s.walk, p))
  {
    SameKeeps(cfg, s, Main, WaitReplyStep(s.walk, p));
  }

  lemma MainKeeps(cfg: Config, s: State)
    requires Ripe(cfg, s) && MainEnabled(s)
    ensures Keeps(cfg, s, Main, MainStep(cfg, s))
  {
    match s.pc
    case WalkRule => RuleKeeps(cfg, s);
    case WalkTest => TestKeeps(cfg, s);
    case WalkSweep(_) => WalkSweepKeeps(cfg, s);
    case ResumeSettle(_) =>
      SettleProgress(s.walk);
      SameKeeps(cfg, s, Main, MainStep(cfg, s));
    case ResumeSweep(_, _) => ResumeSweepKeeps(cfg, s);
    case ResumeCheck(u) =>
      if u.Ready? { PendingKeeps(cfg, s, u.pending); } else { SameKeeps(cfg, s, Main, MainStep(cfg, s)); }
    case Blocked(_) => SameKeeps(cfg, s, Main, MainStep(cfg, s));
    case WaitReply(p) => ReplyKeeps(cfg, s, p);
  }

  lemma StepKeeps(cfg: Config, s: State, l: Label, t: State)
    requires Ripe(cfg, s) && Step(cfg, s, l, t)
    ensures Keeps(cfg, s, l, t)
  {
    if l.Main? {
      MainKeeps(cfg, s);
    } else {
      SameKeeps(cfg, s, l, t);
    }
  }

  // ----- over a run

  /** Each race rule the walk has passed is parked or was heard, or the request
      was decided by a race rule. */
  ghost predicate AllKnown(cfg: Config, states: seq<State>, labels: seq<Label>, i: nat)
    requires |states| == |labels| + 1 && i < |states|
  {
    Raced(states[i].pc) ||
    forall j :: 0 <= j < |cfg.rules| && IsRace(cfg.rules[j]) && j < states[i].walk.index ==>
      IsArmed(states[i].walk.armed, j) || HeardBefore(cfg, states, labels, i, j)
  }

  lemma {:induction false} RunKnown(cfg: Config, states: seq<State>, labels: seq<Label>, i: nat)
    requires Run(cfg, states, labels) && i < |states| && Accepted(cfg.rules)
    ensures Ripe(cfg, states[i]) && AllKnown(cfg, states, labels, i)
  {
    if i == 0 {
      RunShape(cfg, states, labels, i);
      RunGuarded(cfg, states, labels, i);
    } else {
      RunKnown(cfg, states, labels, i - 1);
      RipeNext(cfg, states, labels, i);
      KnownStep(cfg, states, labels, i);
    }
  }

  lemma RipeNext(cfg: Config, states: seq<State>, labels: seq<Label>, i: nat)
    requires Run(cfg, states, labels) && 0 < i < |states| && Ripe(cfg, states[i - 1])
    ensures Ripe(cfg, states[i]) && Keeps(cfg, states[i - 1], labels[i - 1], states[i])
  {
    RunShape(cfg, states, labels, i);
    RunGuarded(cfg, states, labels, i);
    StepKeeps(cfg, states[i - 1], labels[i - 1], states[i]);
  }

  lemma KnownStep(cfg: Config, states: seq<State>, labels: seq<Label>, i: nat)
    requires |states| == |labels| + 1 && 0 < i < |states|
    requires AllKnown(cfg, states, labels, i - 1) && Keeps(cfg, states[i - 1], labels[i - 1], states[i])
    ensures AllKnown(cfg, states, labels, i)
  {
    var s, l, t := states[i - 1], labels[i - 1], states[i];
    if !Raced(t.pc) {
      forall j | 0 <= j < |cfg.rules| && IsRace(cfg.rules[j]) && j < t.walk.index
        ensures IsArmed(t.walk.armed, j) || HeardBefore(cfg, states, labels, i, j)
      {
        if j < s.walk.index && HeardBefore(cfg, states, labels, i - 1, j) {
          var m :| 0 <= m < i - 1 && m < |labels| && Heard(cfg, states[m], labels[m], j);
        } else {
          assert Known(cfg, s, l, t, j);
        }
      }
    }
  }

  /** Before the ordinary walk settles on a query or an answer, every race rule
      above the answering rule was looked at, with all it reads resolved, and had
      nothing to say. */
  lemma EveryRaceHeard(cfg: Config, states: seq<State>, labels: seq<Label>, i: nat, j: nat)
    requires Run(cfg, states, labels) && i < |states| && Accepted(cfg.rules)
    requires Ordinary(cfg, states[i].pc).Some? && j < Ordinary(cfg, states[i].pc).value
    requires j < |cfg.rules| && IsRace(cfg.rules[j])
    ensures HeardBefore(cfg, states, labels, i, j)
  {
    RunKnown(cfg, states, labels, i);
    assert !IsArmed([], j);
  }
}
