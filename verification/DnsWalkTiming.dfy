/**
 For which rule lists the timing of the exchanges does not matter. A response
 that lands between the settle of a rule and its readiness test is missed; it
 can land there only if no ordinary rule before has already waited for it.
 */
module DnsWalkTiming {
  import opened Common
  import opened DnsWalk
  import opened DnsWalkMeaning
  import opened DnsWalkBounds
  import opened DnsWalkCorrect

  /** An ordinary rule that reads a tag waits for its response. */
  predicate WaitsFor(r: Rule, t: string) {
    t in r.tags && !IsRace(r)
  }

  /** Rule j decides on the response that rule d asks for, and no rule between
      them waits for it. */
  ghost predicate Exposed(rules: seq<Rule>, d: nat, j: nat, t: string) {
    && d < j < |rules| && Defines(rules[d], t) && !IsRace(rules[d]) && Decides(rules[j]) && t in rules[j].tags
    && forall k :: d < k < j ==> !WaitsFor(rules[k], t)
  }

  /** None of the tracked rules is exposed. */
  ghost predicate Safe(rules: seq<Rule>, tracked: set<nat>) {
    forall d: nat, j: nat, t: string :: j in tracked ==> !Exposed(rules, d, j, t)
  }

  // ----- the rules that matter for the answer

  /** Each rule of the chain but the last asks for a response that the next one
      reads. */
  ghost predicate Linked(rules: seq<Rule>, c: seq<nat>) {
    && |c| > 0 && (forall p :: 0 <= p < |c| ==> c[p] < |rules| && Decides(rules[c[p]]))
    && (forall p, q :: 0 <= p < q < |c| ==> c[p] < c[q])
    && (forall p :: 0 < p < |c| ==> Feeds(rules[c[p - 1]], rules[c[p]]))
  }

  /** The last one ends the request or changes its options. */
  ghost predicate Chain(rules: seq<Rule>, c: seq<nat>) {
    Linked(rules, c) && !rules[c[|c| - 1]].action.Evaluate?
  }

  ghost predicate Matters(rules: seq<Rule>, j: nat) {
    exists c :: Chain(rules, c) && c[0] == j
  }

  ghost function Mattering(rules: seq<Rule>): set<nat> {
    set j: nat | j < |rules| && Matters(rules, j)
  }

  lemma MatteringIsClosed(rules: seq<Rule>)
    ensures Closed(rules, Mattering(rules))
  {
    forall j: nat | j < |rules| && Decides(rules[j]) && !rules[j].action.Evaluate? ensures j in Mattering(rules) {
      assert Chain(rules, [j]);
    }
    forall e: nat, k: nat | e < k < |rules| && k in Mattering(rules) && Decides(rules[k]) && Feeds(rules[e], rules[k])
      ensures e in Mattering(rules)
    {
      var c :| Chain(rules, c) && c[0] == k;
      ChainExtends(rules, e, c);
    }
  }

  lemma ChainExtends(rules: seq<Rule>, e: nat, c: seq<nat>)
    requires Chain(rules, c) && e < c[0] && Feeds(rules[e], rules[c[0]])
    ensures Matters(rules, e)
  {
    var longer := [e] + c;
    forall p | 0 < p < |longer| ensures Feeds(rules[longer[p - 1]], rules[longer[p]]) {
      if p > 1 {
        assert Feeds(rules[c[p - 2]], rules[c[p - 1]]);
      }
    }
    assert Chain(rules, longer);
  }

  // ----- what the walk has waited for

  /** A tagged future is bound to its tag, was launched by the ordinary rule that
      defines it, and is done once the walk has passed a rule that waits for it. */
  ghost predicate GuardedFuture(cfg: Config, index: nat, named: map<string, nat>, fs: seq<Future>, k: nat)
    requires k < |fs|
  {
    var f := fs[k];
    f.tag != "" ==>
      && f.tag in named && named[f.tag] == k
      && f.rule < |cfg.rules| && Defines(cfg.rules[f.rule], f.tag) && !IsRace(cfg.rules[f.rule])
      && (f.Done() || forall m :: f.rule < m < index && m < |cfg.rules| ==> !WaitsFor(cfg.rules[m], f.tag))
  }

  ghost predicate Guarded(cfg: Config, w: Walk) {
    forall k :: 0 <= k < |w.futures| ==> GuardedFuture(cfg, w.index, w.named, w.futures, k)
  }

  /** The current rule, if the walk passes it, has nothing left to wait for. */
  ghost predicate MayPass(cfg: Config, w: Walk) {
    w.index < |cfg.rules| ==>
      forall k :: 0 <= k < |w.futures| && w.futures[k].tag != "" && WaitsFor(cfg.rules[w.index], w.futures[k].tag) ==>
        w.futures[k].Done()
  }

  /** The futures there were are still what they were. */
  ghost predicate Carries(fs: seq<Future>, gs: seq<Future>) {
    |fs| <= |gs| && forall k :: 0 <= k < |fs| ==>
      gs[k].tag == fs[k].tag && gs[k].rule == fs[k].rule && (fs[k].Done() ==> gs[k].Done())
  }

  /** A step that stays on the rule or passes it, and launches nothing tagged. */
  ghost predicate Quiet(cfg: Config, w: Walk, v: Walk) {
    && Carries(w.futures, v.futures) && v.named == w.named
    && (forall k :: |w.futures| <= k < |v.futures| ==> v.futures[k].tag == "")
    && (v.index == w.index || (v.index == w.index + 1 && MayPass(cfg, w)))
  }

  lemma QuietGuarded(cfg: Config, w: Walk, v: Walk)
    requires Guarded(cfg, w) && Quiet(cfg, w, v)
    ensures Guarded(cfg, v)
  {
    forall k | 0 <= k < |v.futures| ensures GuardedFuture(cfg, v.index, v.named, v.futures, k) {
      if k < |w.futures| {
        assert GuardedFuture(cfg, w.index, w.named, w.futures, k);
      }
    }
  }

  lemma SameQuiet(cfg: Config, w: Walk, v: Walk)
    requires v.index == w.index && v.named == w.named && v.futures == w.futures
    ensures Quiet(cfg, w, v)
  {}

  lemma FinishQuiet(cfg: Config, w: Walk, o: Outcome, g: Origin)
    ensures Quiet(cfg, w, Finish(w, o, g).walk)
  {}

  lemma AdvanceQuiet(cfg: Config, w: Walk, v: Walk)
    requires MayPass(cfg, w) && v.index == w.index + 1 && v.named == w.named && v.futures == w.futures
    ensures Quiet(cfg, w, v)
  {}

  lemma SpeculateQuiet(cfg: Config, w: Walk, server: string, options: QueryOptions)
    ensures Quiet(cfg, w, Speculate(w, server, options))
  {}

  // ----- launching

  lemma NewTag(cfg: Config, w: Walk, t: string)
    requires Guarded(cfg, w) && Base(cfg, w) && Accepted(cfg.rules) && w.index < |cfg.rules| && Defines(cfg.rules[w.index], t)
    ensures forall k :: 0 <= k < |w.futures| ==> w.futures[k].tag != t
  {
    forall k | 0 <= k < |w.futures| ensures w.futures[k].tag != t {
      assert GuardedFuture(cfg, w.index, w.named, w.futures, k);
    }
  }

  lemma LaunchGuarded(cfg: Config, w: Walk, a: Action)
    requires Guarded(cfg, w) && Base(cfg, w) && Accepted(cfg.rules) && MayPass(cfg, w)
    requires w.index < |cfg.rules| && cfg.rules[w.index].action == a && a.Evaluate? && !IsRace(cfg.rules[w.index])
    ensures Guarded(cfg, Advance(BindFuture(w, a)).walk)
  {
    var v := Advance(BindFuture(w, a)).walk;
    BindFrame(w, a);
    if a.tag != "" {
      NewTag(cfg, w, a.tag);
    }
    forall k | 0 <= k < |v.futures| ensures GuardedFuture(cfg, v.index, v.named, v.futures, k) {
      if k < |w.futures| {
        assert GuardedFuture(cfg, w.index, w.named, w.futures, k);
        assert v.futures[k] == w.futures[k];
      }
    }
  }

  // ----- the steps

  lemma SkipGuarded(cfg: Config, w: Walk, v: Walk)
    requires Guarded(cfg, w) && MayPass(cfg, w)
    requires v.index == w.index + 1 && v.named == w.named && v.futures == w.futures
    ensures Guarded(cfg, v)
  {
    AdvanceQuiet(cfg, w, v);
    QuietGuarded(cfg, w, v);
  }

  lemma EvaluateGuarded(cfg: Config, w: Walk, a: Action)
    requires Guarded(cfg, w) && Base(cfg, w) && Accepted(cfg.rules) && MayPass(cfg, w)
    requires w.index < |cfg.rules| && cfg.rules[w.index].action == a && a.Evaluate? && !IsRace(cfg.rules[w.index])
    ensures Guarded(cfg, ActEvaluate(cfg, w, a).walk)
  {
    if a.server !in cfg.servers {
      var v := if a.tag == "" then w.(anonymous := None) else w;
      assert ActEvaluate(cfg, w, a) == Advance(v);
      SkipGuarded(cfg, w, Advance(v).walk);
    } else if a.speculative || w.armed == [] {
      assert ActEvaluate(cfg, w, a) == Advance(BindFuture(w, a));
      LaunchGuarded(cfg, w, a);
    } else {
      assert ActEvaluate(cfg, w, a) == Suspend(w, Drain);
    }
  }

  lemma RouteGuarded(cfg: Config, w: Walk, a: Action)
    requires Guarded(cfg, w) && MayPass(cfg, w) && a.Route?
    ensures Guarded(cfg, ActRoute(cfg, w, a).walk)
  {
    var resolved := ResolveRoute(cfg, a.server, a.options, w.options);
    var v := ActRoute(cfg, w, a).walk;
    if resolved.None? {
      AdvanceQuiet(cfg, w, v);
    } else if w.armed != [] && a.speculative && w.terminal.None? {
      SpeculateQuiet(cfg, w, a.server, resolved.value);
    } else {
      SameQuiet(cfg, w, v);
    }
    QuietGuarded(cfg, w, v);
  }

  lemma RespondGuarded(cfg: Config, w: Walk, r: Rule)
    requires Guarded(cfg, w)
    ensures Guarded(cfg, ActRespond(w, r).walk)
  {
    var t := ActRespond(w, r);
    if t.pc.Finished? {
      FinishQuiet(cfg, w, t.pc.outcome, t.pc.origin);
    } else {
      SameQuiet(cfg, w, t.walk);
    }
    QuietGuarded(cfg, w, t.walk);
  }

  lemma RejectGuarded(cfg: Config, w: Walk, m: RejectMethod)
    requires Guarded(cfg, w) && MayPass(cfg, w)
    ensures Guarded(cfg, ActReject(w, m).walk)
  {
    var t := ActReject(w, m);
    if t.pc.Finished? {
      FinishQuiet(cfg, w, t.pc.outcome, t.pc.origin);
    } else if t.pc.WalkRule? {
      AdvanceQuiet(cfg, w, t.walk);
    } else {
      SameQuiet(cfg, w, t.walk);
    }
    QuietGuarded(cfg, w, t.walk);
  }

  lemma PredefinedGuarded(cfg: Config, w: Walk, answer: Msg)
    requires Guarded(cfg, w)
    ensures Guarded(cfg, Finish(w, Canned(answer), FromRule(w.index)).walk)
  {
    FinishQuiet(cfg, w, Canned(answer), FromRule(w.index));
    QuietGuarded(cfg, w, Finish(w, Canned(answer), FromRule(w.index)).walk);
  }

  lemma ActGuarded(cfg: Config, w: Walk, r: Rule)
    requires Guarded(cfg, w) && Base(cfg, w) && Accepted(cfg.rules) && MayPass(cfg, w)
    requires w.index < |cfg.rules| && cfg.rules[w.index] == r && !IsRace(r)
    ensures Guarded(cfg, Act(cfg, w, r).walk)
  {
    match r.action
    case SetOptions(o) =>
      SkipGuarded(cfg, w, Act(cfg, w, r).walk);
    case Evaluate(_, _, _, _) => EvaluateGuarded(cfg, w, r.action);
    case Respond => RespondGuarded(cfg, w, r);
    case Route(_, _, _) => RouteGuarded(cfg, w, r.action);
    case Reject(m) => RejectGuarded(cfg, w, m);
    case Predefined(answer) => PredefinedGuarded(cfg, w, answer);
  }

  lemma MatchGuarded(cfg: Config, w: Walk, r: Rule)
    requires Guarded(cfg, w) && Base(cfg, w) && Accepted(cfg.rules) && MayPass(cfg, w)
    requires w.index < |cfg.rules| && cfg.rules[w.index] == r && !IsRace(r)
    ensures Guarded(cfg, MatchAndAct(cfg, w, r).walk)
  {
    ActGuarded(cfg, w, r);
    SkipGuarded(cfg, w, Advance(w).walk);
  }

  lemma NothingLeft(cfg: Config, w: Walk)
    requires Guarded(cfg, w) && w.index < |cfg.rules| && AwaitFor(w, cfg.rules[w.index]).None?
    ensures MayPass(cfg, w)
  {
    forall k | 0 <= k < |w.futures| && w.futures[k].tag != "" && WaitsFor(cfg.rules[w.index], w.futures[k].tag)
      ensures w.futures[k].Done()
    {
      assert GuardedFuture(cfg, w.index, w.named, w.futures, k);
      NothingPending(w, cfg.rules[w.index].tags, w.futures[k].tag);
    }
  }

  lemma SettleGuarded(cfg: Config, w: Walk)
    requires Guarded(cfg, w)
    ensures Guarded(cfg, Settle(w))
  {
    SettleProgress(w);
    QuietGuarded(cfg, w, Settle(w));
  }

  lemma PendingGuarded(cfg: Config, w: Walk, p: Pending)
    requires Guarded(cfg, w)
    ensures Guarded(cfg, FinishPending(cfg, w, p).walk)
  {
    var v := FinishPending(cfg, w, p).walk;
    assert |v.futures| == |w.futures|;
    QuietGuarded(cfg, w, v);
  }

  lemma DisarmGuarded(cfg: Config, w: Walk, at: nat)
    requires Guarded(cfg, w) && at < |w.armed|
    ensures Guarded(cfg, Disarm(w, at))
  {
    SameQuiet(cfg, w, Disarm(w, at));
    QuietGuarded(cfg, w, Disarm(w, at));
  }

  lemma FinishGuarded(cfg: Config, w: Walk, o: Outcome, g: Origin)
    requires Guarded(cfg, w)
    ensures Guarded(cfg, Finish(w, o, g).walk)
  {
    FinishQuiet(cfg, w, o, g);
    QuietGuarded(cfg, w, Finish(w, o, g).walk);
  }

  lemma WalkSweepGuarded(cfg: Config, w: Walk, at: nat)
    requires Guarded(cfg, w)
    ensures Guarded(cfg, WalkSweepStep(cfg, w, at).walk)
  {
    if at < |w.armed| && IsReady(w, w.armed[at]) {
      DisarmGuarded(cfg, w, at);
      match Judge(cfg, w, w.armed[at])
      case Miss =>
      case Settled(o) => FinishGuarded(cfg, Disarm(w, at), o, FromRace(w.armed[at].rule));
      case Commit(p) =>
        SameQuiet(cfg, w, w.(armed := []));
        QuietGuarded(cfg, w, w.(armed := []));
    }
  }

  lemma ResumeSweepGuarded(cfg: Config, w: Walk, u: Suspension, at: nat)
    requires Guarded(cfg, w)
    ensures Guarded(cfg, ResumeSweepStep(cfg, w, u, at).walk)
  {
    if at < |w.armed| && IsReady(w, w.armed[at]) {
      DisarmGuarded(cfg, w, at);
      match Judge(cfg, w, w.armed[at])
      case Miss =>
      case Settled(o) => FinishGuarded(cfg, Disarm(w, at), o, FromRace(w.armed[at].rule));
      case Commit(p) => PendingGuarded(cfg, Disarm(w, at), p);
    }
  }

  lemma TestGuarded(cfg: Config, w: Walk)
    requires Guarded(cfg, w) && Base(cfg, w) && Accepted(cfg.rules)
    requires w.index < |cfg.rules| ==> HasBindings(cfg.rules[w.index])
    ensures Guarded(cfg, WalkTestStep(cfg, w).walk)
  {
    if w.index < |cfg.rules| {
      var r := cfg.rules[w.index];
      if r.race {
        SkipGuarded(cfg, w, ArmRule(w, r).walk);
      } else if AwaitFor(w, r).None? {
        NothingLeft(cfg, w);
        MatchGuarded(cfg, w, r);
      }
    }
  }

  lemma RuleGuarded(cfg: Config, w: Walk)
    requires Guarded(cfg, w) && Base(cfg, w) && Accepted(cfg.rules)
    ensures Guarded(cfg, WalkRuleStep(cfg, w).walk)
  {
    if w.index < |cfg.rules| {
      if HasBindings(cfg.rules[w.index]) {
        SettleGuarded(cfg, w);
      } else {
        MatchGuarded(cfg, w, cfg.rules[w.index]);
      }
    }
  }

  lemma MainGuarded(cfg: Config, s: State)
    requires Guarded(cfg, s.walk) && Base(cfg, s.walk) && Accepted(cfg.rules) && TestsBindings(cfg, s) && MainEnabled(s)
    ensures Guarded(cfg, MainStep(cfg, s).walk)
  {
    match s.pc
    case WalkRule => RuleGuarded(cfg, s.walk);
    case WalkTest => TestGuarded(cfg, s.walk);
    case WalkSweep(at) => WalkSweepGuarded(cfg, s.walk, at);
    case ResumeSettle(u) => SettleGuarded(cfg, s.walk);
    case ResumeSweep(u, at) => ResumeSweepGuarded(cfg, s.walk, u, at);
    case ResumeCheck(u) => if u.Ready? { PendingGuarded(cfg, s.walk, u.pending); }
    case Blocked(_) => SameQuiet(cfg, s.walk, s.walk.(wake := false));
    case WaitReply(p) => FinishGuarded(cfg, s.walk, WaitReplyStep(s.walk, p).pc.outcome, p.origin);
  }

  lemma StepGuarded(cfg: Config, s: State, l: Label, t: State)
    requires Guarded(cfg, s.walk) && Base(cfg, s.walk) && Accepted(cfg.rules) && TestsBindings(cfg, s) && Step(cfg, s, l, t)
    ensures Guarded(cfg, t.walk) && TestsBindings(cfg, t)
  {
    match l
    case Main =>
      MainGuarded(cfg, s);
      MainTests(cfg, s);
    case Resolve(k, reply) => QuietGuarded(cfg, s.walk, t.walk);
    case Notify(k) => QuietGuarded(cfg, s.walk, t.walk);
    case GiveUp => FinishGuarded(cfg, s.walk, Outcome.Cancelled, Origin.GaveUp);
  }

  lemma StepGuardedAt(cfg: Config, states: seq<State>, labels: seq<Label>, i: nat)
    requires Run(cfg, states, labels) && i < |labels| && Accepted(cfg.rules)
    requires Guarded(cfg, states[i].walk) && Base(cfg, states[i].walk) && TestsBindings(cfg, states[i])
    ensures Guarded(cfg, states[i + 1].walk) && TestsBindings(cfg, states[i + 1])
  {
    StepGuarded(cfg, states[i], labels[i], states[i + 1]);
  }

  lemma {:induction false} RunGuarded(cfg: Config, states: seq<State>, labels: seq<Label>, i: nat)
    requires Run(cfg, states, labels) && i < |states| && Accepted(cfg.rules)
    ensures Guarded(cfg, states[i].walk) && TestsBindings(cfg, states[i])
  {
    if i > 0 {
      RunGuarded(cfg, states, labels, i - 1);
      RunShape(cfg, states, labels, i - 1);
      StepGuardedAt(cfg, states, labels, i - 1);
    }
  }

  // ----- safe lists

  /** What a rule of a safe list decides on has been waited for before. */
  lemma SafeSettled(cfg: Config, tracked: set<nat>, w: Walk, j: nat, k: nat)
    requires Guarded(cfg, w) && Accepted(cfg.rules) && Safe(cfg.rules, tracked)
    requires k < |w.futures| && w.futures[k].tag != "" && j <= w.index && DecidesOn(cfg.rules, tracked, j, w.futures[k].tag)
    ensures w.futures[k].Done()
  {
    var f := w.futures[k];
    assert GuardedFuture(cfg, w.index, w.named, w.futures, k);
    assert !Exposed(cfg.rules, f.rule, j, f.tag);
    var m :| f.rule < m < j && WaitsFor(cfg.rules[m], f.tag);
  }

  lemma SafeStep(cfg: Config, tracked: set<nat>, s: State, l: Label, t: State)
    requires Guarded(cfg, s.walk) && Base(cfg, s.walk) && Accepted(cfg.rules) && Safe(cfg.rules, tracked) && Step(cfg, s, l, t)
    ensures TimelyStep(cfg, tracked, s, l)
  {
    if l.Resolve? && s.walk.futures[l.future].tag != "" && Watches(cfg, tracked, s.walk, s.pc, s.walk.futures[l.future].tag) {
      var j := Watcher(cfg, tracked, s.walk, s.pc, s.walk.futures[l.future].tag);
      SafeSettled(cfg, tracked, s.walk, j, l.future);
    }
  }

  /** When the tracked rules are safe every run is timely, whenever the exchanges
      complete. */
  lemma SafeIsTimely(cfg: Config, tracked: set<nat>, states: seq<State>, labels: seq<Label>)
    requires Run(cfg, states, labels) && Accepted(cfg.rules) && Safe(cfg.rules, tracked)
    ensures Timely(cfg, tracked, states, labels)
  {
    forall i | 0 <= i < |labels| ensures TimelyStep(cfg, tracked, states[i], labels[i]) {
      RunGuarded(cfg, states, labels, i);
      RunShape(cfg, states, labels, i);
      SafeStep(cfg, tracked, states[i], labels[i], states[i + 1]);
    }
  }

  lemma Watcher(cfg: Config, tracked: set<nat>, w: Walk, pc: Control, t: string) returns (j: nat)
    requires Watches(cfg, tracked, w, pc, t) && ArmedShape(w.armed, w.index, |w.futures|)
    ensures j <= w.index && DecidesOn(cfg.rules, tracked, j, t)
  {
    if p :| 0 <= p < |w.armed| && DecidesOn(cfg.rules, tracked, w.armed[p].rule, t) {
      j := w.armed[p].rule;
      assert ValidArmed(w.armed[p], w.index, |w.futures|);
    } else {
      j := w.index;
    }
  }

  /** A list whose tracked rules are safe, for any closed set of rules, gives a
      correct answer whenever the exchanges complete. */
  lemma SafeIsCorrect(cfg: Config, tracked: set<nat>, states: seq<State>, labels: seq<Label>, i: nat)
    requires Run(cfg, states, labels) && i < |states| && states[i].pc.Finished?
    requires Fit(cfg.rules, tracked) && ReadsOnlyBindings(cfg) && Safe(cfg.rules, tracked)
    ensures Correct(cfg, states[i].pc.outcome, states[i].pc.origin)
  {
    SafeIsTimely(cfg, tracked, states, labels);
    RunCorrect(cfg, tracked, states, labels, i);
  }

  /** In particular a list in which no rule reads a tag. */
  lemma UnreadIsSafe(rules: seq<Rule>)
    requires forall i :: 0 <= i < |rules| ==> rules[i].tags == []
    ensures Safe(rules, AllRules(rules))
  {}

  /** A rule that waits and decides nothing shields the rules after it: this
      list answers with a tagged response and is safe. */
  lemma WaitingShields()
    ensures var rules := [Rule([], "", false, false, Evaluate("upstream", "x", false, NO_OPTIONS)),
                          Rule(["x"], "", false, false, SetOptions(NO_OPTIONS)),
                          Rule(["x"], "x", false, false, Respond)];
            Accepted(rules) && Safe(rules, AllRules(rules))
  {
    var rules := [Rule([], "", false, false, Evaluate("upstream", "x", false, NO_OPTIONS)),
                  Rule(["x"], "", false, false, SetOptions(NO_OPTIONS)),
                  Rule(["x"], "x", false, false, Respond)];
    forall d: nat, j: nat, t: string ensures !Exposed(rules, d, j, t) {
      assert WaitsFor(rules[1], "x");
    }
  }
}
