/**
 Consequences of the walk's correctness: which options a query carries, when an
 evaluated response is written, and the one timing under which the walk departs
 from its rules.
 */
module DnsWalkTheorems {
  import opened Common
  import opened DnsWalk
  import opened DnsWalkMeaning
  import opened DnsWalkBounds
  import opened DnsWalkCorrect

  // ----- the options of a committed query

  /** The options of a query issued on behalf of `origin`: the fold of the matched
      option rules before it, refined by the rule's own options. */
  ghost predicate FoldedOptions(cfg: Config, origin: Origin, via: string, options: QueryOptions) {
    var i := OriginIndex(cfg, origin);
    && i <= |cfg.rules| && SyncAt(cfg, i).Some?
    && var folded := Fold(cfg.initial, MatchedOptions(cfg, i));
       if i == |cfg.rules| then via == cfg.fallback && options == folded
       else cfg.rules[i].action.Route? && via == cfg.rules[i].action.server
            && ResolveRoute(cfg, via, cfg.rules[i].action.options, folded) == Some(options)
  }

  lemma {:induction false} StopIsReached(cfg: Config, i: nat, y: Sync)
    requires i <= |cfg.rules| && SyncAt(cfg, i) == Some(y)
    ensures var (o, g) := MeaningFrom(cfg, i, y);
            && (g.FromRule? || g.FromDefault?)
            && (g.FromDefault? ==>
                  && SyncAt(cfg, |cfg.rules|).Some?
                  && o == CallOutcome(cfg, Call(|cfg.rules|, cfg.fallback, SyncAt(cfg, |cfg.rules|).value.options)))
            && (g.FromRule? ==>
                  && g.index < |cfg.rules| && SyncAt(cfg, g.index).Some?
                  && SyncRule(cfg, g.index, SyncAt(cfg, g.index).value) == Stop(o))
    decreases |cfg.rules| - i
  {
    if i < |cfg.rules| && SyncRule(cfg, i, y).Next? {
      StopIsReached(cfg, i + 1, SyncRule(cfg, i, y).sync);
    }
  }

  lemma CorrectOptions(cfg: Config, o: Outcome, g: Origin)
    requires Correct(cfg, o, g) && o.Query? && !g.GaveUp?
    ensures FoldedOptions(cfg, g, o.via, o.options)
  {
    if g.FromRace? {
      OptionsAreFold(cfg, g.index);
    } else {
      StopIsReached(cfg, 0, SyncInit(cfg));
      OptionsAreFold(cfg, OriginIndex(cfg, g));
    }
  }

  /** The options of any committed query are the fold of the matched option rules
      before its rule, plus the rule's own, although the walk was suspended,
      resumed and re-entered in between. */
  lemma CommittedOptions(cfg: Config, tracked: set<nat>, states: seq<State>, labels: seq<Label>, i: nat)
    requires Run(cfg, states, labels) && Timely(cfg, tracked, states, labels) && i < |states| && states[i].pc.Finished?
    requires Fit(cfg.rules, tracked) && ReadsOnlyBindings(cfg)
    requires states[i].pc.outcome.Query? && !states[i].pc.origin.GaveUp?
    ensures FoldedOptions(cfg, states[i].pc.origin, states[i].pc.outcome.via, states[i].pc.outcome.options)
  {
    RunCorrect(cfg, tracked, states, labels, i);
    CorrectOptions(cfg, states[i].pc.outcome, states[i].pc.origin);
  }

  // ----- an options rule takes effect once

  /** The walk stays on its rule or goes on to a later one, and its options change
      only in passing a matched options rule. */
  ghost predicate Refined(cfg: Config, w: Walk, v: Walk) {
    || Keeps(w, v)
    || (&& w.index < |cfg.rules| && cfg.rules[w.index].action.SetOptions? && !IsRace(cfg.rules[w.index])
        && v.index == w.index + 1 && v.options == Apply(w.options, cfg.rules[w.index].action.options))
  }

  /** The walk stays on its rule or passes it, with the same options. */
  ghost predicate Keeps(w: Walk, v: Walk) {
    v.index >= w.index && v.options == w.options
  }

  lemma EvaluateKeeps(cfg: Config, w: Walk, a: Action)
    requires a.Evaluate?
    ensures Keeps(w, ActEvaluate(cfg, w, a).walk)
  {
    assert Keeps(w, BindFuture(w, a));
  }

  lemma RouteKeeps(cfg: Config, w: Walk, a: Action)
    requires a.Route?
    ensures Keeps(w, ActRoute(cfg, w, a).walk)
  {}

  lemma RespondKeeps(w: Walk, r: Rule)
    ensures Keeps(w, ActRespond(w, r).walk)
  {}

  lemma RejectKeeps(w: Walk, m: RejectMethod)
    ensures Keeps(w, ActReject(w, m).walk)
  {}

  lemma ActRefined(cfg: Config, w: Walk, r: Rule)
    requires w.index < |cfg.rules| && cfg.rules[w.index] == r && !IsRace(r)
    ensures Refined(cfg, w, Act(cfg, w, r).walk)
  {
    match r.action
    case SetOptions(o) =>
    case Evaluate(_, _, _, _) => EvaluateKeeps(cfg, w, r.action);
    case Respond => RespondKeeps(w, r);
    case Route(_, _, _) => RouteKeeps(cfg, w, r.action);
    case Reject(m) => RejectKeeps(w, m);
    case Predefined(answer) =>
  }

  lemma MatchRefined(cfg: Config, w: Walk, r: Rule)
    requires w.index < |cfg.rules| && cfg.rules[w.index] == r && !IsRace(r)
    ensures Refined(cfg, w, MatchAndAct(cfg, w, r).walk)
  {
    ActRefined(cfg, w, r);
    assert Keeps(w, Advance(w).walk);
  }

  lemma TestRefined(cfg: Config, w: Walk)
    requires w.index < |cfg.rules| ==> HasBindings(cfg.rules[w.index])
    ensures Refined(cfg, w, WalkTestStep(cfg, w).walk)
  {
    if w.index < |cfg.rules| && !cfg.rules[w.index].race {
      MatchRefined(cfg, w, cfg.rules[w.index]);
    } else {
      assert Keeps(w, WalkTestStep(cfg, w).walk);
    }
  }

  lemma RuleRefined(cfg: Config, w: Walk)
    ensures Refined(cfg, w, WalkRuleStep(cfg, w).walk)
  {
    SettleProgress(w);
    if w.index < |cfg.rules| && !HasBindings(cfg.rules[w.index]) {
      MatchRefined(cfg, w, cfg.rules[w.index]);
    } else {
      assert Keeps(w, WalkRuleStep(cfg, w).walk);
    }
  }

  lemma SweepKeeps(cfg: Config, w: Walk, u: Suspension, at: nat)
    ensures Keeps(w, WalkSweepStep(cfg, w, at).walk) && Keeps(w, ResumeSweepStep(cfg, w, u, at).walk)
  {}

  lemma MainRefined(cfg: Config, s: State)
    requires MainEnabled(s) && TestsBindings(cfg, s)
    ensures Refined(cfg, s.walk, MainStep(cfg, s).walk)
  {
    match s.pc
    case WalkRule => RuleRefined(cfg, s.walk);
    case WalkTest => TestRefined(cfg, s.walk);
    case WalkSweep(at) => SweepKeeps(cfg, s.walk, Drain, at);
    case ResumeSettle(_) => SettleProgress(s.walk);
    case ResumeSweep(u, at) => SweepKeeps(cfg, s.walk, u, at);
    case ResumeCheck(u) => assert Keeps(s.walk, ResumeCheckStep(cfg, s.walk, u).walk);
    case Blocked(_) =>
    case WaitReply(p) =>
  }

  ghost predicate OptionRules(rules: seq<Rule>, picks: seq<nat>, index: nat) {
    && (forall p :: 0 <= p < |picks| ==> picks[p] < |rules| && picks[p] < index && rules[picks[p]].action.SetOptions?)
    && (forall p, q :: 0 <= p < q < |picks| ==> picks[p] < picks[q])
  }

  function OptionsOf(rules: seq<Rule>, picks: seq<nat>): seq<RouteOptions>
    requires forall p :: 0 <= p < |picks| ==> picks[p] < |rules| && rules[picks[p]].action.SetOptions?
  {
    seq(|picks|, p requires 0 <= p < |picks| => rules[picks[p]].action.options)
  }

  /** Under any timing the options are the fold of some options rules, each once
      and in the order of the list: none takes effect again however often the
      walk is suspended and resumed. */
  lemma {:induction false} OptionsOnce(cfg: Config, states: seq<State>, labels: seq<Label>, i: nat) returns (picks: seq<nat>)
    requires Run(cfg, states, labels) && i < |states|
    ensures OptionRules(cfg.rules, picks, states[i].walk.index) && TestsBindings(cfg, states[i])
    ensures states[i].walk.options == Fold(cfg.initial, OptionsOf(cfg.rules, picks))
  {
    if i == 0 {
      picks := [];
    } else {
      var before := OptionsOnce(cfg, states, labels, i - 1);
      picks := StepOptions(cfg, states[i - 1], labels[i - 1], states[i], before);
    }
  }

  lemma StepOptions(cfg: Config, s: State, l: Label, t: State, before: seq<nat>) returns (picks: seq<nat>)
    requires Step(cfg, s, l, t) && TestsBindings(cfg, s) && OptionRules(cfg.rules, before, s.walk.index)
    requires s.walk.options == Fold(cfg.initial, OptionsOf(cfg.rules, before))
    ensures OptionRules(cfg.rules, picks, t.walk.index) && TestsBindings(cfg, t)
    ensures t.walk.options == Fold(cfg.initial, OptionsOf(cfg.rules, picks))
  {
    if l.Main? {
      MainRefined(cfg, s);
      MainTests(cfg, s);
    }
    assert Refined(cfg, s.walk, t.walk);
    picks := before;
    if !Keeps(s.walk, t.walk) {
      picks := before + [s.walk.index];
      var o := cfg.rules[s.walk.index].action.options;
      assert OptionsOf(cfg.rules, picks) == OptionsOf(cfg.rules, before) + [o];
      FoldPush(cfg.initial, OptionsOf(cfg.rules, before), o);
    }
  }

  // ----- a response is written once

  /** Every tagged future comes from the rule that defines its tag. */
  ghost predicate TagOrigin(cfg: Config, fs: seq<Future>) {
    forall k :: 0 <= k < |fs| && fs[k].tag != "" ==> fs[k].rule < |cfg.rules| && Defines(cfg.rules[fs[k].rule], fs[k].tag)
  }

  ghost predicate Written(fs: seq<Future>, responses: map<string, Option<Msg>>, t: string, k: nat) {
    k < |fs| && fs[k].tag == t && t != "" && fs[k].settled && fs[k].Done() && t in responses && responses[t] == fs[k].View()
  }

  /** A named response was put there by a settled future of that tag. */
  ghost predicate HasWriter(w: Walk, t: string) {
    t in w.responses ==> exists k :: Written(w.futures, w.responses, t, k)
  }

  ghost predicate RulesDistinct(fs: seq<Future>) {
    forall a, b :: 0 <= a < b < |fs| ==> fs[a].rule != fs[b].rule
  }

  /** Futures only move on: what is settled stays, what was delivered stays. */
  ghost predicate Evolves(fs: seq<Future>, gs: seq<Future>) {
    |fs| <= |gs| && forall k :: 0 <= k < |fs| ==>
      && gs[k].tag == fs[k].tag && gs[k].rule == fs[k].rule && (fs[k].settled ==> gs[k].settled)
      && (fs[k].Done() ==> gs[k].Done() && gs[k].reply == fs[k].reply)
  }

  /** Two futures never share a tag. */
  lemma TagsDistinct(cfg: Config, fs: seq<Future>, j: nat, k: nat)
    requires TagOrigin(cfg, fs) && RulesDistinct(fs) && Accepted(cfg.rules)
    requires j < |fs| && k < |fs| && j != k && fs[k].tag != ""
    ensures fs[j].tag != fs[k].tag
  {}

  lemma SettleOneWritten(cfg: Config, w: Walk, m: nat, t: string, k: nat)
    requires TagOrigin(cfg, w.futures) && RulesDistinct(w.futures) && Accepted(cfg.rules) && m < |w.futures|
    requires Written(w.futures, w.responses, t, k)
    ensures var v := SettleOne(w, m);
            Written(v.futures, v.responses, t, k) && TagOrigin(cfg, v.futures) && RulesDistinct(v.futures)
  {
    if m != k { TagsDistinct(cfg, w.futures, m, k); }
  }

  lemma {:induction false} SettleFromWritten(cfg: Config, w: Walk, m: nat, t: string, k: nat)
    requires TagOrigin(cfg, w.futures) && RulesDistinct(w.futures) && Accepted(cfg.rules) && m <= |w.futures|
    requires Written(w.futures, w.responses, t, k)
    ensures Written(SettleFrom(w, m).futures, SettleFrom(w, m).responses, t, k)
    decreases |w.futures| - m
  {
    if m < |w.futures| {
      SettleOneWritten(cfg, w, m, t, k);
      SettleFromWritten(cfg, SettleOne(w, m), m + 1, t, k);
    }
  }

  lemma {:induction false} SettleFromWriter(cfg: Config, w: Walk, m: nat, t: string)
    requires TagOrigin(cfg, w.futures) && RulesDistinct(w.futures) && Accepted(cfg.rules) && m <= |w.futures|
    requires t !in w.responses
    ensures HasWriter(SettleFrom(w, m), t)
    decreases |w.futures| - m
  {
    if m < |w.futures| {
      var v := SettleOne(w, m);
      assert TagOrigin(cfg, v.futures) && RulesDistinct(v.futures);
      if t in v.responses {
        assert Written(v.futures, v.responses, t, m);
        SettleFromWritten(cfg, v, m + 1, t, m);
      } else {
        SettleFromWriter(cfg, v, m + 1, t);
      }
    }
  }

  // ----- every step but a settle leaves the responses alone

  predicate Settles(cfg: Config, s: State) {
    s.pc.ResumeSettle? || (s.pc.WalkRule? && s.walk.index < |cfg.rules| && HasBindings(cfg.rules[s.walk.index]))
  }

  ghost predicate Untouched(cfg: Config, w: Walk, t: State) {
    && t.walk.responses == w.responses && Evolves(w.futures, t.walk.futures)
    && (TagOrigin(cfg, w.futures) ==> TagOrigin(cfg, t.walk.futures))
  }

  lemma EvaluateUntouched(cfg: Config, w: Walk, a: Action)
    requires w.index < |cfg.rules| && cfg.rules[w.index].action == a && a.Evaluate?
    requires RefShape(w.anonymous, w.named, w.terminal, |w.futures|)
    ensures Untouched(cfg, w, ActEvaluate(cfg, w, a))
  {
    BindFrame(w, a);
  }

  lemma RouteUntouched(cfg: Config, w: Walk, a: Action)
    requires a.Route?
    ensures Untouched(cfg, w, ActRoute(cfg, w, a))
  {}

  lemma FinishUntouched(cfg: Config, w: Walk, o: Outcome, g: Origin)
    ensures Untouched(cfg, w, Finish(w, o, g))
  {}

  lemma SameUntouched(cfg: Config, w: Walk, t: State)
    requires t.walk.futures == w.futures && t.walk.responses == w.responses
    ensures Untouched(cfg, w, t)
  {}

  lemma RespondUntouched(cfg: Config, w: Walk, r: Rule)
    ensures Untouched(cfg, w, ActRespond(w, r))
  {
    FinishUntouched(cfg, w, TaggedAnswer(w, r.respondTag), FromRule(w.index));
    FinishUntouched(cfg, w, FutureAnswer(w, w.anonymous), FromRule(w.index));
    SameUntouched(cfg, w, Suspend(w, Drain));
    if w.anonymous.Some? { SameUntouched(cfg, w, Suspend(w, Await(w.anonymous.value))); }
  }

  lemma RejectUntouched(cfg: Config, w: Walk, m: RejectMethod)
    ensures Untouched(cfg, w, ActReject(w, m))
  {
    FinishUntouched(cfg, w, Refused, FromRule(w.index));
    FinishUntouched(cfg, w, Dropped, FromRule(w.index));
    SameUntouched(cfg, w, Suspend(w, Drain));
    SameUntouched(cfg, w, Advance(w));
  }

  lemma ActUntouched(cfg: Config, w: Walk, r: Rule)
    requires w.index < |cfg.rules| && cfg.rules[w.index] == r
    requires RefShape(w.anonymous, w.named, w.terminal, |w.futures|)
    ensures Untouched(cfg, w, Act(cfg, w, r))
  {
    match r.action
    case SetOptions(o) => SameUntouched(cfg, w, Act(cfg, w, r));
    case Evaluate(_, _, _, _) => EvaluateUntouched(cfg, w, r.action);
    case Route(_, _, _) => RouteUntouched(cfg, w, r.action);
    case Respond => RespondUntouched(cfg, w, r);
    case Reject(m) => RejectUntouched(cfg, w, m);
    case Predefined(answer) =>
      FinishUntouched(cfg, w, Canned(answer), FromRule(w.index));
      SameUntouched(cfg, w, Suspend(w, Drain));
  }

  lemma MatchUntouched(cfg: Config, w: Walk, r: Rule)
    requires w.index < |cfg.rules| && cfg.rules[w.index] == r
    requires RefShape(w.anonymous, w.named, w.terminal, |w.futures|)
    ensures Untouched(cfg, w, MatchAndAct(cfg, w, r))
  {
    ActUntouched(cfg, w, r);
    SameUntouched(cfg, w, Advance(w));
  }

  lemma PendingUntouched(cfg: Config, w: Walk, p: Pending)
    ensures Untouched(cfg, w, FinishPending(cfg, w, p))
  {
    if p.future.None? {
      FinishUntouched(cfg, w, FinishPending(cfg, w, p).pc.outcome, p.origin);
    }
  }

  lemma WalkSweepUntouched(cfg: Config, w: Walk, at: nat)
    ensures Untouched(cfg, w, WalkSweepStep(cfg, w, at))
  {
    var t := WalkSweepStep(cfg, w, at);
    if t.pc.Finished? {
      FinishUntouched(cfg, Disarm(w, at), t.pc.outcome, t.pc.origin);
    } else {
      SameUntouched(cfg, w, t);
    }
  }

  lemma ResumeSweepUntouched(cfg: Config, w: Walk, u: Suspension, at: nat)
    ensures Untouched(cfg, w, ResumeSweepStep(cfg, w, u, at))
  {
    if at < |w.armed| && IsReady(w, w.armed[at]) {
      match Judge(cfg, w, w.armed[at])
      case Miss =>
      case Settled(o) => FinishUntouched(cfg, Disarm(w, at), o, FromRace(w.armed[at].rule));
      case Commit(p) => PendingUntouched(cfg, Disarm(w, at), p);
    } else {
      SameUntouched(cfg, w, ResumeSweepStep(cfg, w, u, at));
    }
  }

  lemma TestUntouched(cfg: Config, w: Walk)
    requires Base(cfg, w)
    ensures Untouched(cfg, w, WalkTestStep(cfg, w))
  {
    if w.index < |cfg.rules| && !cfg.rules[w.index].race && AwaitFor(w, cfg.rules[w.index]).None? {
      MatchUntouched(cfg, w, cfg.rules[w.index]);
    } else {
      SameUntouched(cfg, w, WalkTestStep(cfg, w));
    }
  }

  lemma RuleUntouched(cfg: Config, w: Walk)
    requires Base(cfg, w) && (w.index < |cfg.rules| ==> !HasBindings(cfg.rules[w.index]))
    ensures Untouched(cfg, w, WalkRuleStep(cfg, w))
  {
    if w.index < |cfg.rules| {
      MatchUntouched(cfg, w, cfg.rules[w.index]);
    } else {
      SameUntouched(cfg, w, WalkRuleStep(cfg, w));
    }
  }

  lemma MainUntouched(cfg: Config, s: State)
    requires MainEnabled(s) && !Settles(cfg, s) && Base(cfg, s.walk)
    ensures Untouched(cfg, s.walk, MainStep(cfg, s))
  {
    match s.pc
    case WalkRule => RuleUntouched(cfg, s.walk);
    case WalkTest => TestUntouched(cfg, s.walk);
    case WalkSweep(at) => WalkSweepUntouched(cfg, s.walk, at);
    case ResumeSweep(u, at) => ResumeSweepUntouched(cfg, s.walk, u, at);
    case ResumeCheck(u) =>
      if u.Ready? { PendingUntouched(cfg, s.walk, u.pending); } else { SameUntouched(cfg, s.walk, MainStep(cfg, s)); }
    case WaitReply(p) => FinishUntouched(cfg, s.walk, WaitReplyStep(s.walk, p).pc.outcome, p.origin);
    case Blocked(_) => SameUntouched(cfg, s.walk, MainStep(cfg, s));
    case _ =>
  }

  lemma StepWritten(cfg: Config, s: State, l: Label, v: State, t: string, k: nat)
    requires Step(cfg, s, l, v) && Shape(cfg, s) && Accepted(cfg.rules) && TagOrigin(cfg, s.walk.futures)
    requires Written(s.walk.futures, s.walk.responses, t, k)
    ensures Written(v.walk.futures, v.walk.responses, t, k)
    ensures v.walk.responses[t] == s.walk.responses[t]
  {
    if l.Main? && Settles(cfg, s) {
      SettleFromWritten(cfg, s.walk, 0, t, k);
      SettleFromFrame(s.walk, 0);
    } else if l.Main? {
      MainUntouched(cfg, s);
    } else if l.GiveUp? {
      FinishUntouched(cfg, s.walk, Outcome.Cancelled, Origin.GaveUp);
    }
  }

  lemma StepOrigin(cfg: Config, s: State, l: Label, v: State)
    requires Step(cfg, s, l, v) && Shape(cfg, s) && TagOrigin(cfg, s.walk.futures)
    ensures TagOrigin(cfg, v.walk.futures)
  {
    if l.Main? && Settles(cfg, s) {
      SettleFromFrame(s.walk, 0);
    } else if l.Main? {
      MainUntouched(cfg, s);
    } else if l.GiveUp? {
      FinishUntouched(cfg, s.walk, Outcome.Cancelled, Origin.GaveUp);
    }
  }

  lemma StepWriter(cfg: Config, s: State, l: Label, v: State, t: string)
    requires Step(cfg, s, l, v) && Shape(cfg, s) && Accepted(cfg.rules) && TagOrigin(cfg, s.walk.futures)
    requires HasWriter(s.walk, t)
    ensures HasWriter(v.walk, t)
  {
    if t in s.walk.responses {
      var k: nat :| Written(s.walk.futures, s.walk.responses, t, k);
      StepWritten(cfg, s, l, v, t, k);
    } else if l.Main? && Settles(cfg, s) {
      SettleFromWriter(cfg, s.walk, 0, t);
    } else if l.Main? {
      MainUntouched(cfg, s);
    }
  }

  lemma WriterNext(cfg: Config, s: State, l: Label, v: State, t: string)
    requires Step(cfg, s, l, v) && Shape(cfg, s) && Accepted(cfg.rules) && TagOrigin(cfg, s.walk.futures)
    requires HasWriter(s.walk, t)
    ensures TagOrigin(cfg, v.walk.futures) && HasWriter(v.walk, t)
  {
    StepOrigin(cfg, s, l, v);
    StepWriter(cfg, s, l, v, t);
  }

  lemma {:induction false} RunWriter(cfg: Config, states: seq<State>, labels: seq<Label>, i: nat, t: string)
    requires Run(cfg, states, labels) && i < |states| && Accepted(cfg.rules)
    ensures TagOrigin(cfg, states[i].walk.futures) && HasWriter(states[i].walk, t)
  {
    if i == 0 {
      assert states[0].walk.futures == [] && t !in states[0].walk.responses;
    } else {
      RunWriter(cfg, states, labels, i - 1, t);
      RunShape(cfg, states, labels, i - 1);
      WriterNext(cfg, states[i - 1], labels[i - 1], states[i], t);
    }
  }

  lemma {:induction false} WrittenStays(cfg: Config, states: seq<State>, labels: seq<Label>, i: nat, j: nat, t: string, k: nat)
    requires Run(cfg, states, labels) && i <= j < |states| && Accepted(cfg.rules)
    requires Written(states[i].walk.futures, states[i].walk.responses, t, k)
    ensures Written(states[j].walk.futures, states[j].walk.responses, t, k)
    ensures states[j].walk.responses[t] == states[i].walk.responses[t]
  {
    if i < j {
      WrittenStays(cfg, states, labels, i, j - 1, t, k);
      RunWriter(cfg, states, labels, j - 1, t);
      RunShape(cfg, states, labels, j - 1);
      StepWritten(cfg, states[j - 1], labels[j - 1], states[j], t, k);
    }
  }

  /**
   An evaluated response is written at most once: from the moment a tag has a
   named response, that response never changes, and it comes from the one rule
   that defines the tag, which stands before every rule that reads it. This
   holds under any timing of the exchanges.
   */
  lemma ResponseWrittenOnce(cfg: Config, states: seq<State>, labels: seq<Label>, i: nat, j: nat, t: string)
    requires Run(cfg, states, labels) && i <= j < |states| && Accepted(cfg.rules)
    requires t in states[i].walk.responses
    ensures t in states[j].walk.responses && states[j].walk.responses[t] == states[i].walk.responses[t]
    ensures exists d :: 0 <= d < |cfg.rules| && Defines(cfg.rules[d], t)
                      && (forall e :: 0 <= e < |cfg.rules| && Defines(cfg.rules[e], t) ==> e == d)
                      && (forall r :: 0 <= r < |cfg.rules| && t in cfg.rules[r].tags ==> d < r)
  {
    RunWriter(cfg, states, labels, i, t);
    var k: nat :| Written(states[i].walk.futures, states[i].walk.responses, t, k);
    WrittenStays(cfg, states, labels, i, j, t, k);
    var d := states[i].walk.futures[k].rule;
    assert Defines(cfg.rules[d], t);
  }

  // ----- the one timing that departs from the rules

  const PLAIN := NO_OPTIONS
  const HELLO := Msg(0, "hello")

  predicate WindowMatches(i: nat, v: View) {
    i == 0 || Get(v.named, "first").Some?
  }

  /** Evaluate on one server, then answer with what it said. */
  function WindowConfig(): Config {
    Config(
      [Rule([], "", false, false, Evaluate("upstream", "first", false, PLAIN)),
       Rule(["first"], "first", false, false, Respond)],
      WindowMatches,
      map["upstream" := false],
      "default", true, PLAIN,
      (i, transport, o) => Reply(Some(HELLO), None))
  }

  function WindowFuture(phase: Phase, settled: bool, cancelled: bool): Future {
    Future(0, "first", "upstream", PLAIN, phase, if phase.Running? then NO_REPLY else Reply(Some(HELLO), None), settled, cancelled)
  }

  function WindowWalk(index: nat, f: Future, responses: map<string, Option<Msg>>, transports: map<string, string>): Walk {
    Walk(index, PLAIN, None, map["first" := 0], responses, transports, [f], [], None, 0, false)
  }

  /** The exchange completes after the settle of rule 1 and before its test. */
  ghost function WindowStates(): seq<State> {
    var running, resolved := WindowFuture(Running, false, false), WindowFuture(Resolved, false, false);
    var pending := Ready(Pending(FromDefault, "default", PLAIN, None));
    var settled := WindowWalk(2, WindowFuture(Resolved, true, false), map["first" := Some(HELLO)], map["first" := "upstream"]);
    [ Init(WindowConfig()),
      State(WindowWalk(1, running, map[], map[]), WalkRule),
      State(WindowWalk(1, running, map[], map[]), WalkTest),
      State(WindowWalk(1, resolved, map[], map[]), WalkTest),
      State(WindowWalk(2, resolved, map[], map[]), WalkRule),
      State(WindowWalk(2, resolved, map[], map[]), ResumeSettle(pending)),
      State(settled, ResumeSweep(pending, 0)),
      State(settled, ResumeCheck(pending)),
      Finish(settled, Query("default", PLAIN, Reply(Some(HELLO), None)), FromDefault) ]
  }

  function WindowLabels(): seq<Label> {
    [Main, Main, Resolve(0, Reply(Some(HELLO), None)), Main, Main, Main, Main, Main]
  }

  lemma WindowLaunch()
    ensures var cfg, s := WindowConfig(), WindowStates();
            Step(cfg, s[0], Main, s[1]) && Step(cfg, s[1], Main, s[2])
  {
    WindowAsks();
    var w := WindowWalk(1, WindowFuture(Running, false, false), map[], map[]);
    assert SettleOne(w, 0) == w;
    assert SettleFrom(w, 1) == w;
  }

  lemma WindowAsks()
    ensures MainStep(WindowConfig(), Init(WindowConfig()))
            == State(WindowWalk(1, WindowFuture(Running, false, false), map[], map[]), WalkRule)
  {
    var cfg := WindowConfig();
    var w := Init(cfg).walk;
    assert MatchAndAct(cfg, w, cfg.rules[0]) == ActEvaluate(cfg, w, cfg.rules[0].action);
    assert BindFuture(w, cfg.rules[0].action).futures == [WindowFuture(Running, false, false)];
  }

  lemma WindowMiss()
    ensures var cfg, s := WindowConfig(), WindowStates();
            && Step(cfg, s[2], Resolve(0, Reply(Some(HELLO), None)), s[3])
            && Step(cfg, s[3], Main, s[4]) && Step(cfg, s[4], Main, s[5])
  {
    var cfg, s := WindowConfig(), WindowStates();
    var r := cfg.rules[1];
    assert r.tags[1..] == [];
    assert FirstPending(s[3].walk, r.tags).None?;
    assert !WindowMatches(1, CurrentView(s[3].walk));
  }

  lemma WindowEnd()
    ensures var cfg, s := WindowConfig(), WindowStates();
            Step(cfg, s[5], Main, s[6]) && Step(cfg, s[6], Main, s[7]) && Step(cfg, s[7], Main, s[8])
  {
    var cfg, s := WindowConfig(), WindowStates();
    var v := SettleOne(s[5].walk, 0);
    assert v == s[6].walk;
    assert SettleFrom(v, 1) == v;
  }

  /** The answer the rules mean: what the upstream said. */
  lemma WindowMeaning()
    ensures Meaning(WindowConfig()) == (Answer(HELLO, Some("upstream")), FromRule(1))
  {
    var cfg := WindowConfig();
    var y := SyncRule(cfg, 0, SyncInit(cfg)).sync;
    assert y.named == map["first" := Call(0, "upstream", PLAIN)];
    assert SyncView(cfg, y).named == map["first" := Some(HELLO)];
    assert WindowMatches(1, SyncView(cfg, y));
    assert SyncRule(cfg, 1, y) == Stop(Answer(HELLO, Some("upstream")));
  }

  lemma WindowRun()
    ensures Run(WindowConfig(), WindowStates(), WindowLabels()) && !Timely(WindowConfig(), AllRules(WindowConfig().rules), WindowStates(), WindowLabels())
  {
    WindowLaunch();
    WindowMiss();
    WindowEnd();
    var rules := WindowConfig().rules;
    assert DecidesOn(rules, AllRules(rules), 1, "first");
    assert !TimelyStep(WindowConfig(), AllRules(rules), WindowStates()[2], WindowLabels()[2]);
  }

  /**
   A tagged exchange that completes between the settle of a rule and its
   readiness test is awaited no more and not yet visible: the rule misses, and
   the request falls through to the default server although the upstream had
   answered. The rule list is accepted, has no race rule, and its matcher reads
   only bound responses.
   */
  lemma UntimelyCompletionChangesAnswer()
    ensures var cfg := WindowConfig();
            && Accepted(cfg.rules) && ReadsOnlyBindings(cfg)
            && (forall j :: 0 <= j < |cfg.rules| ==> !IsRace(cfg.rules[j]))
            && exists states: seq<State>, labels: seq<Label> ::
                 && Run(cfg, states, labels) && states[|labels|].pc.Finished? && !Timely(cfg, AllRules(cfg.rules), states, labels)
                 && states[|labels|].pc.outcome != Meaning(cfg).0
  {
    WindowRules();
    WindowOutcome();
    WindowRun();
  }

  lemma WindowRules()
    ensures var cfg := WindowConfig();
            && Accepted(cfg.rules) && ReadsOnlyBindings(cfg)
            && (forall j :: 0 <= j < |cfg.rules| ==> !IsRace(cfg.rules[j]))
  {}

  lemma WindowOutcome()
    ensures var last := WindowStates()[|WindowLabels()|];
            last.pc.Finished? && last.pc.outcome != Meaning(WindowConfig()).0
  {
    WindowMeaning();
  }
}
