/**
 What every run of the DNS rule walk keeps, whatever the rules are and whenever
 the exchanges complete: no lost wake-up, a bounded number of steps, every
 launched exchange cancelled at the end, no rule launching twice.
 */
module DnsWalkBounds {
  import opened Common
  import opened DnsWalk

  // ----- settling changes only the settled marks and the two response maps

  function SettleMark(f: Future): Future {
    f.(settled := f.settled || f.Done())
  }

  lemma {:induction false} SettleFromFrame(w: Walk, k: nat)
    requires k <= |w.futures|
    ensures
      var v := SettleFrom(w, k);
      && v == w.(futures := v.futures, responses := v.responses, transports := v.transports)
      && |v.futures| == |w.futures|
      && (forall j :: 0 <= j < k ==> v.futures[j] == w.futures[j])
      && (forall j :: k <= j < |w.futures| ==> v.futures[j] == SettleMark(w.futures[j]))
    decreases |w.futures| - k
  {
    if k < |w.futures| { SettleFromFrame(SettleOne(w, k), k + 1); }
  }

  // ----- the shape of reachable states

  ghost predicate ValidFuture(f: Option<nat>, n: nat) {
    f.Some? ==> f.value < n
  }

  ghost predicate ValidArmed(a: Armed, index: nat, n: nat) {
    a.rule < index && (forall f :: f in a.futures ==> f < n) && ValidFuture(a.anonymous, n)
  }

  /** The armed rules, in rule order, are rules the walk has passed. */
  ghost predicate ArmedShape(armed: seq<Armed>, index: nat, n: nat) {
    && |armed| <= index
    && (forall p, q :: 0 <= p < q < |armed| ==> armed[p].rule < armed[q].rule)
    && (forall p :: 0 <= p < |armed| ==> ValidArmed(armed[p], index, n))
  }

  ghost predicate RefShape(anonymous: Option<nat>, named: map<string, nat>, terminal: Option<nat>, n: nat) {
    ValidFuture(anonymous, n) && ValidFuture(terminal, n) && forall t :: t in named ==> named[t] < n
  }

  /** A rule launches at most one exchange, and the walk has passed it since,
      except for the speculative terminal query of the current rule. */
  ghost predicate LaunchShape(fs: seq<Future>, index: nat, terminal: Option<nat>) {
    && (forall k :: 0 <= k < |fs| ==> fs[k].rule < index || (fs[k].rule == index && terminal == Some(k)))
    && (forall j, k :: 0 <= j < k < |fs| ==> fs[j].rule != fs[k].rule)
  }

  /** Only a route rule launches a terminal query, and the walk stays on it. */
  ghost predicate TerminalShape(rules: seq<Rule>, fs: seq<Future>, index: nat, terminal: Option<nat>) {
    terminal.Some? && terminal.value < |fs| && fs[terminal.value].rule == index ==>
      index < |rules| && rules[index].action.Route?
  }

  ghost predicate Base(cfg: Config, w: Walk) {
    && w.index <= |cfg.rules|
    && ArmedShape(w.armed, w.index, |w.futures|)
    && RefShape(w.anonymous, w.named, w.terminal, |w.futures|)
    && LaunchShape(w.futures, w.index, w.terminal)
    && TerminalShape(cfg.rules, w.futures, w.index, w.terminal)
  }

  ghost predicate SuspensionShape(suspension: Suspension, n: nat) {
    match suspension
    case Await(f) => f < n
    case Drain => true
    case Ready(p) => ValidFuture(p.future, n)
  }

  ghost predicate AllCancelled(fs: seq<Future>) {
    forall k :: 0 <= k < |fs| ==> fs[k].cancelled
  }

  ghost predicate Unfinished(fs: seq<Future>, f: nat) {
    f < |fs| && fs[f].phase != Notified
  }

  /** A parked rule that a sweep has passed over still waits for a callback, or
      the wake-up token is there. */
  ghost predicate Waits(wake: bool, fs: seq<Future>, a: Armed) {
    wake || exists f :: f in a.futures && Unfinished(fs, f)
  }

  ghost predicate WaitsUpTo(wake: bool, fs: seq<Future>, armed: seq<Armed>, n: nat) {
    forall p :: 0 <= p < n && p < |armed| ==> Waits(wake, fs, armed[p])
  }

  ghost predicate PcShape(w: Walk, pc: Control) {
    match pc
    case WalkSweep(at) => at <= |w.armed|
    case ResumeSettle(u) => SuspensionShape(u, |w.futures|)
    case ResumeSweep(u, at) =>
      at <= |w.armed| && SuspensionShape(u, |w.futures|) && WaitsUpTo(w.wake, w.futures, w.armed, at)
    case ResumeCheck(u) => SuspensionShape(u, |w.futures|) && WaitsUpTo(w.wake, w.futures, w.armed, |w.armed|)
    case Blocked(u) =>
      && SuspensionShape(u, |w.futures|) && !u.Ready?
      && (u.Drain? ==> w.armed != [] && WaitsUpTo(w.wake, w.futures, w.armed, |w.armed|))
      && (u.Await? ==> w.wake || Unfinished(w.futures, u.future))
    case WaitReply(p) => p.future.Some? && ValidFuture(p.future, |w.futures|)
    case Finished(_, _) => AllCancelled(w.futures)
    case _ => true
  }

  ghost predicate Shape(cfg: Config, s: State) {
    Base(cfg, s.walk) && PcShape(s.walk, s.pc)
  }

  // ----- the work that is left

  /** A running exchange still has to resolve and to post its token. */
  function Credit(f: Future): nat {
    match f.phase
    case Running => 3
    case Resolved => 2
    case Notified => 0
  }

  function Credits(fs: seq<Future>): nat {
    if fs == [] then 0 else Credit(fs[0]) + Credits(fs[1..])
  }

  function RulesLeft(cfg: Config, w: Walk): int {
    |cfg.rules| - w.index + if w.terminal.None? then 1 else 0
  }

  function Weight(cfg: Config, w: Walk): int {
    5 * RulesLeft(cfg, w) + Credits(w.futures) + (if w.wake then 1 else 0) + |w.armed|
  }

  /** Orders the steps between two changes of the weight. */
  function Rank(w: Walk, pc: Control): int {
    match pc
    case Finished(_, _) => 0
    case WaitReply(_) => 1
    case Blocked(_) => 2
    case ResumeCheck(u) => if Passes(w, u) then 8 + |w.armed| else 3
    case ResumeSweep(u, at) => (if Passes(w, u) then 9 + |w.armed| else 4) + |w.armed| - at
    case ResumeSettle(u) => (if Passes(w, u) then 10 + |w.armed| else 5) + |w.armed|
    case WalkTest => 6 + |w.armed|
    case WalkRule => 7 + |w.armed|
    case WalkSweep(at) => 8 + |w.armed| + |w.armed| - at
  }

  ghost predicate Less(cfg: Config, t: State, s: State) {
    || Weight(cfg, t.walk) < Weight(cfg, s.walk)
    || (Weight(cfg, t.walk) == Weight(cfg, s.walk) && Rank(t.walk, t.pc) < Rank(s.walk, s.pc))
  }

  // ----- credits

  lemma {:induction false} CreditsSame(fs: seq<Future>, gs: seq<Future>)
    requires |fs| == |gs| && forall k :: 0 <= k < |fs| ==> Credit(fs[k]) == Credit(gs[k])
    ensures Credits(fs) == Credits(gs)
  {
    if fs != [] { CreditsSame(fs[1..], gs[1..]); }
  }

  lemma {:induction false} CreditsPush(fs: seq<Future>, f: Future)
    ensures Credits(fs + [f]) == Credits(fs) + Credit(f)
  {
    if fs == [] {
      assert fs + [f] == [f];
    } else {
      assert (fs + [f])[1..] == fs[1..] + [f];
      CreditsPush(fs[1..], f);
    }
  }

  lemma {:induction false} CreditsUpdate(fs: seq<Future>, k: nat, f: Future)
    requires k < |fs|
    ensures Credits(fs[k := f]) == Credits(fs) - Credit(fs[k]) + Credit(f)
  {
    if k == 0 {
      assert fs[k := f][1..] == fs[1..];
    } else {
      assert fs[k := f][1..] == fs[1..][k - 1 := f];
      CreditsUpdate(fs[1..], k - 1, f);
    }
  }

  // ----- what the building blocks of a step do

  lemma ArmedShapeMono(armed: seq<Armed>, i: nat, n: nat, i': nat, n': nat)
    requires ArmedShape(armed, i, n) && i <= i' && n <= n'
    ensures ArmedShape(armed, i', n')
  {
    forall p | 0 <= p < |armed| ensures ValidArmed(armed[p], i', n') {
      assert ValidArmed(armed[p], i, n);
    }
  }

  lemma ArmedShapePush(armed: seq<Armed>, a: Armed, i: nat, n: nat)
    requires ArmedShape(armed, i, n) && a.rule == i && ValidArmed(a, i + 1, n)
    ensures ArmedShape(armed + [a], i + 1, n)
  {
    forall p | 0 <= p < |armed| ensures ValidArmed(armed[p], i + 1, n) {
      assert ValidArmed(armed[p], i, n);
    }
  }

  lemma ArmedShapeWithout(armed: seq<Armed>, i: nat, n: nat, k: nat)
    requires ArmedShape(armed, i, n) && k < |armed|
    ensures ArmedShape(Without(armed, k), i, n)
  {
    var rest := Without(armed, k);
    forall p | 0 <= p < |rest| ensures ValidArmed(rest[p], i, n) {
      assert ValidArmed(armed[if p < k then p else p + 1], i, n);
    }
  }

  lemma LaunchShapeExtend(fs: seq<Future>, f: Future, index: nat, terminal: Option<nat>)
    requires LaunchShape(fs, index, terminal) && f.rule == index
    requires terminal.Some? && terminal.value < |fs| ==> fs[terminal.value].rule != index
    ensures LaunchShape(fs + [f], index + 1, terminal)
    ensures terminal.None? ==> LaunchShape(fs + [f], index, Some(|fs|))
  {
    var gs := fs + [f];
    forall k | 0 <= k < |gs| ensures gs[k].rule < index || k == |fs| {
      if k < |fs| { assert gs[k] == fs[k]; }
    }
  }

  lemma AdvanceBase(cfg: Config, w: Walk)
    requires Base(cfg, w) && w.index < |cfg.rules|
    ensures Base(cfg, w.(index := w.index + 1))
  {
    ArmedShapeMono(w.armed, w.index, |w.futures|, w.index + 1, |w.futures|);
  }

  /** The same exchanges, whatever has happened to them since. */
  ghost predicate SameLaunches(fs: seq<Future>, gs: seq<Future>) {
    |fs| == |gs| && forall k :: 0 <= k < |fs| ==> fs[k].rule == gs[k].rule
  }

  lemma FuturesBase(cfg: Config, w: Walk, v: Walk)
    requires Base(cfg, w) && SameLaunches(w.futures, v.futures)
    requires v.index == w.index && v.armed == w.armed && v.terminal == w.terminal
    requires v.anonymous == w.anonymous && v.named == w.named
    ensures Base(cfg, v)
  {}

  lemma CancelBase(cfg: Config, w: Walk, spare: Option<nat>)
    requires Base(cfg, w)
    ensures Base(cfg, w.(futures := CancelAll(w.futures, spare)))
    ensures Weight(cfg, w.(futures := CancelAll(w.futures, spare))) == Weight(cfg, w)
  {
    FuturesBase(cfg, w, w.(futures := CancelAll(w.futures, spare)));
    CreditsSame(w.futures, CancelAll(w.futures, spare));
  }

  lemma SettleBase(cfg: Config, w: Walk)
    requires Base(cfg, w)
    ensures Base(cfg, Settle(w)) && Weight(cfg, Settle(w)) == Weight(cfg, w)
    ensures Settle(w).armed == w.armed && |Settle(w).futures| == |w.futures|
    ensures forall f :: IsDone(Settle(w), f) == IsDone(w, f)
  {
    SettleFromFrame(w, 0);
    FuturesBase(cfg, w, Settle(w));
    CreditsSame(w.futures, Settle(w).futures);
  }

  lemma BindFrame(w: Walk, a: Action)
    requires a.Evaluate? && RefShape(w.anonymous, w.named, w.terminal, |w.futures|)
    ensures var v := BindFuture(w, a);
            && RefShape(v.anonymous, v.named, v.terminal, |w.futures| + 1)
            && v.terminal == w.terminal && v.index == w.index && v.armed == w.armed && v.wake == w.wake
            && v.responses == w.responses && v.transports == w.transports && v.options == w.options
            && v.named == (if a.tag == "" then w.named else w.named[a.tag := |w.futures|])
            && v.futures == w.futures + [NewFuture(w, a.tag, a.server, Apply(w.options, a.options))]
  {}

  lemma LaunchBase(cfg: Config, w: Walk, a: Action)
    requires Base(cfg, w) && w.index < |cfg.rules| && cfg.rules[w.index].action == a && a.Evaluate?
    ensures Base(cfg, Advance(BindFuture(w, a)).walk)
    ensures Weight(cfg, Advance(BindFuture(w, a)).walk) == Weight(cfg, w) - 2
  {
    var f := NewFuture(w, a.tag, a.server, Apply(w.options, a.options));
    BindFrame(w, a);
    LaunchShapeExtend(w.futures, f, w.index, w.terminal);
    ArmedShapeMono(w.armed, w.index, |w.futures|, w.index + 1, |w.futures| + 1);
    CreditsPush(w.futures, f);
  }

  lemma SpeculateBase(cfg: Config, w: Walk, server: string, options: QueryOptions)
    requires Base(cfg, w) && w.index < |cfg.rules| && cfg.rules[w.index].action.Route? && w.terminal.None?
    ensures Base(cfg, Speculate(w, server, options))
    ensures Weight(cfg, Speculate(w, server, options)) == Weight(cfg, w) - 2
  {
    var f := NewFuture(w, "", server, options);
    LaunchShapeExtend(w.futures, f, w.index, w.terminal);
    ArmedShapeMono(w.armed, w.index, |w.futures|, w.index, |w.futures| + 1);
    CreditsPush(w.futures, f);
  }

  lemma DisarmBase(cfg: Config, w: Walk, k: nat)
    requires Base(cfg, w) && k < |w.armed|
    ensures Base(cfg, Disarm(w, k)) && Weight(cfg, Disarm(w, k)) == Weight(cfg, w) - 1
  {
    ArmedShapeWithout(w.armed, w.index, |w.futures|, k);
  }

  // ----- every step keeps the shape and uses up work

  /** A step of the ordinary walk from `w`. */
  ghost predicate WalkGood(cfg: Config, w: Walk, t: State) {
    && Shape(cfg, t)
    && (Weight(cfg, t.walk) < Weight(cfg, w) ||
        (Weight(cfg, t.walk) == Weight(cfg, w) && Rank(t.walk, t.pc) <= 5 + |w.armed|))
  }

  lemma SuspendGood(cfg: Config, w: Walk, u: Suspension)
    requires Base(cfg, w) && SuspensionShape(u, |w.futures|) && !Passes(w, u)
    ensures WalkGood(cfg, w, Suspend(w, u))
  {}

  lemma FinishGood(cfg: Config, w: Walk, o: Outcome, g: Origin)
    requires Base(cfg, w)
    ensures WalkGood(cfg, w, Finish(w, o, g))
    ensures Rank(Finish(w, o, g).walk, Finish(w, o, g).pc) == 0
    ensures Weight(cfg, Finish(w, o, g).walk) == Weight(cfg, w)
  {
    CancelBase(cfg, w, None);
  }

  lemma AdvanceGood(cfg: Config, w: Walk)
    requires Base(cfg, w) && w.index < |cfg.rules|
    ensures WalkGood(cfg, w, Advance(w))
  {
    AdvanceBase(cfg, w);
  }

  lemma EvaluateGood(cfg: Config, w: Walk, a: Action)
    requires Base(cfg, w) && w.index < |cfg.rules| && cfg.rules[w.index].action == a && a.Evaluate?
    ensures WalkGood(cfg, w, ActEvaluate(cfg, w, a))
  {
    if a.server !in cfg.servers {
      var v := if a.tag == "" then w.(anonymous := None) else w;
      assert Weight(cfg, v) == Weight(cfg, w);
      AdvanceGood(cfg, v);
    } else if !a.speculative && w.armed != [] {
      SuspendGood(cfg, w, Drain);
    } else {
      LaunchBase(cfg, w, a);
    }
  }

  lemma RouteGood(cfg: Config, w: Walk, a: Action)
    requires Base(cfg, w) && w.index < |cfg.rules| && cfg.rules[w.index].action == a && a.Route?
    ensures WalkGood(cfg, w, ActRoute(cfg, w, a))
  {
    var resolved := ResolveRoute(cfg, a.server, a.options, w.options);
    if resolved.None? {
      AdvanceGood(cfg, w);
    } else if w.armed != [] {
      if a.speculative && w.terminal.None? {
        SpeculateBase(cfg, w, a.server, resolved.value);
        SuspendGood(cfg, Speculate(w, a.server, resolved.value), Drain);
      } else {
        SuspendGood(cfg, w, Drain);
      }
    }
  }

  lemma RespondGood(cfg: Config, w: Walk, r: Rule)
    requires Base(cfg, w) && w.index < |cfg.rules| && r.action.Respond?
    ensures WalkGood(cfg, w, Act(cfg, w, r))
  {
    if w.armed != [] {
      SuspendGood(cfg, w, Drain);
    } else if r.respondTag != "" {
      FinishGood(cfg, w, TaggedAnswer(w, r.respondTag), FromRule(w.index));
    } else {
      FinishGood(cfg, w, FutureAnswer(w, w.anonymous), FromRule(w.index));
    }
  }

  lemma RejectGood(cfg: Config, w: Walk, m: RejectMethod)
    requires Base(cfg, w) && w.index < |cfg.rules|
    ensures WalkGood(cfg, w, ActReject(w, m))
  {
    if w.armed != [] {
      SuspendGood(cfg, w, Drain);
      assert ActReject(w, m) == Suspend(w, Drain);
    } else {
      match m
      case RejectDefault => FinishGood(cfg, w, Refused, FromRule(w.index));
      case RejectDrop => FinishGood(cfg, w, Dropped, FromRule(w.index));
      case RejectReply => AdvanceGood(cfg, w);
    }
  }

  lemma ActGood(cfg: Config, w: Walk, r: Rule)
    requires Base(cfg, w) && w.index < |cfg.rules| && cfg.rules[w.index] == r
    ensures WalkGood(cfg, w, Act(cfg, w, r))
  {
    match r.action
    case SetOptions(o) =>
      var v := w.(options := Apply(w.options, o));
      assert Weight(cfg, v) == Weight(cfg, w);
      AdvanceGood(cfg, v);
    case Evaluate(_, _, _, _) => EvaluateGood(cfg, w, r.action);
    case Route(_, _, _) => RouteGood(cfg, w, r.action);
    case Respond => RespondGood(cfg, w, r);
    case Reject(m) => RejectGood(cfg, w, m);
    case Predefined(answer) =>
      if w.armed != [] { SuspendGood(cfg, w, Drain); }
      else { FinishGood(cfg, w, Canned(answer), FromRule(w.index)); }
  }

  lemma MatchAndActGood(cfg: Config, w: Walk, r: Rule)
    requires Base(cfg, w) && w.index < |cfg.rules| && cfg.rules[w.index] == r
    ensures WalkGood(cfg, w, MatchAndAct(cfg, w, r))
  {
    ActGood(cfg, w, r);
    AdvanceGood(cfg, w);
  }

  lemma EndGood(cfg: Config, w: Walk)
    requires Base(cfg, w)
    ensures WalkGood(cfg, w, EndOfRules(cfg, w))
  {}

  lemma {:induction false} AllPendingValid(w: Walk, tags: seq<string>)
    requires RefShape(w.anonymous, w.named, w.terminal, |w.futures|)
    ensures forall f :: f in AllPending(w, tags) ==> f < |w.futures|
  {
    if tags != [] { AllPendingValid(w, tags[1..]); }
  }

  lemma {:induction false} FirstPendingValid(w: Walk, tags: seq<string>)
    requires RefShape(w.anonymous, w.named, w.terminal, |w.futures|)
    ensures FirstPending(w, tags).Some? ==>
              FirstPending(w, tags).value < |w.futures| && !IsDone(w, FirstPending(w, tags).value)
  {
    if tags != [] { FirstPendingValid(w, tags[1..]); }
  }

  lemma ArmGood(cfg: Config, w: Walk, r: Rule)
    requires Base(cfg, w) && w.index < |cfg.rules|
    ensures WalkGood(cfg, w, ArmRule(w, r))
  {
    AllPendingValid(w, r.tags);
    AdvanceBase(cfg, w);
    ArmedShapePush(w.armed, ArmedFor(w, r), w.index, |w.futures|);
  }

  lemma WalkRuleGood(cfg: Config, w: Walk)
    requires Base(cfg, w)
    ensures Shape(cfg, WalkRuleStep(cfg, w)) && Less(cfg, WalkRuleStep(cfg, w), State(w, WalkRule))
  {
    if w.index >= |cfg.rules| {
      EndGood(cfg, w);
    } else if HasBindings(cfg.rules[w.index]) {
      SettleBase(cfg, w);
    } else {
      MatchAndActGood(cfg, w, cfg.rules[w.index]);
    }
  }

  lemma WalkTestGood(cfg: Config, w: Walk)
    requires Base(cfg, w)
    ensures Shape(cfg, WalkTestStep(cfg, w)) && Less(cfg, WalkTestStep(cfg, w), State(w, WalkTest))
  {
    if w.index >= |cfg.rules| {
      EndGood(cfg, w);
    } else {
      var r := cfg.rules[w.index];
      FirstPendingValid(w, r.tags);
      if r.race {
        ArmGood(cfg, w, r);
      } else if AwaitFor(w, r).Some? {
        SuspendGood(cfg, w, Await(AwaitFor(w, r).value));
      } else {
        MatchAndActGood(cfg, w, r);
      }
    }
  }

  lemma FinishPendingGood(cfg: Config, w: Walk, p: Pending)
    requires Base(cfg, w) && ValidFuture(p.future, |w.futures|)
    ensures var t := FinishPending(cfg, w, p);
            Shape(cfg, t) && Weight(cfg, t.walk) == Weight(cfg, w) && Rank(t.walk, t.pc) <= 1
  {
    if p.future.Some? {
      CancelBase(cfg, w, p.future);
    } else {
      FinishGood(cfg, w, Query(p.transport, p.options, cfg.reply(OriginIndex(cfg, p.origin), p.transport, p.options)), p.origin);
    }
  }

  lemma WalkSweepGood(cfg: Config, w: Walk, at: nat)
    requires Base(cfg, w) && at <= |w.armed|
    ensures Shape(cfg, WalkSweepStep(cfg, w, at)) && Less(cfg, WalkSweepStep(cfg, w, at), State(w, WalkSweep(at)))
  {
    if at < |w.armed| && IsReady(w, w.armed[at]) {
      WalkJudgedGood(cfg, w, at);
    }
  }

  lemma WalkJudgedGood(cfg: Config, w: Walk, at: nat)
    requires Base(cfg, w) && at < |w.armed| && IsReady(w, w.armed[at])
    ensures Shape(cfg, WalkSweepStep(cfg, w, at)) && Less(cfg, WalkSweepStep(cfg, w, at), State(w, WalkSweep(at)))
  {
    DisarmBase(cfg, w, at);
    match Judge(cfg, w, w.armed[at])
    case Settled(o) => FinishGood(cfg, Disarm(w, at), o, FromRace(w.armed[at].rule));
    case _ =>
  }

  lemma ResumeSweepGood(cfg: Config, w: Walk, u: Suspension, at: nat)
    requires Base(cfg, w) && PcShape(w, ResumeSweep(u, at))
    ensures Shape(cfg, ResumeSweepStep(cfg, w, u, at))
    ensures Less(cfg, ResumeSweepStep(cfg, w, u, at), State(w, ResumeSweep(u, at)))
  {
    if at < |w.armed| {
      var a := w.armed[at];
      assert ValidArmed(a, w.index, |w.futures|);
      if !IsReady(w, a) {
        var f :| f in a.futures && !IsDone(w, f);
        assert Unfinished(w.futures, f);
      } else {
        ResumeJudgedGood(cfg, w, u, at);
      }
    }
  }

  lemma ResumeJudgedGood(cfg: Config, w: Walk, u: Suspension, at: nat)
    requires Base(cfg, w) && PcShape(w, ResumeSweep(u, at)) && at < |w.armed| && IsReady(w, w.armed[at])
    ensures Shape(cfg, ResumeSweepStep(cfg, w, u, at))
    ensures Less(cfg, ResumeSweepStep(cfg, w, u, at), State(w, ResumeSweep(u, at)))
  {
    DisarmBase(cfg, w, at);
    match Judge(cfg, w, w.armed[at])
    case Settled(o) => FinishGood(cfg, Disarm(w, at), o, FromRace(w.armed[at].rule));
    case Commit(p) => FinishPendingGood(cfg, Disarm(w, at), p);
    case Miss =>
  }

  lemma ResumeCheckGood(cfg: Config, w: Walk, u: Suspension)
    requires Base(cfg, w) && PcShape(w, ResumeCheck(u))
    ensures Shape(cfg, ResumeCheckStep(cfg, w, u))
    ensures Less(cfg, ResumeCheckStep(cfg, w, u), State(w, ResumeCheck(u)))
  {
    if u.Ready? { FinishPendingGood(cfg, w, u.pending); }
  }

  lemma MainGood(cfg: Config, s: State)
    requires Shape(cfg, s) && MainEnabled(s)
    ensures Shape(cfg, MainStep(cfg, s)) && Less(cfg, MainStep(cfg, s), s)
  {
    match s.pc
    case WalkRule => WalkRuleGood(cfg, s.walk);
    case WalkTest => WalkTestGood(cfg, s.walk);
    case WalkSweep(at) => WalkSweepGood(cfg, s.walk, at);
    case ResumeSettle(u) => SettleBase(cfg, s.walk);
    case ResumeSweep(u, at) => ResumeSweepGood(cfg, s.walk, u, at);
    case ResumeCheck(u) => ResumeCheckGood(cfg, s.walk, u);
    case Blocked(u) =>
    case WaitReply(p) =>
      var t := WaitReplyStep(s.walk, p);
      FinishGood(cfg, s.walk, t.pc.outcome, p.origin);
  }

  lemma WaitsMono(wake: bool, fs: seq<Future>, wake': bool, gs: seq<Future>, armed: seq<Armed>, n: nat)
    requires WaitsUpTo(wake, fs, armed, n)
    requires wake ==> wake'
    requires wake' || forall f :: Unfinished(fs, f) ==> Unfinished(gs, f)
    ensures WaitsUpTo(wake', gs, armed, n)
  {
    forall p | 0 <= p < n && p < |armed| ensures Waits(wake', gs, armed[p]) {
      assert Waits(wake, fs, armed[p]);
    }
  }

  lemma ResolveGood(cfg: Config, w: Walk, pc: Control, k: nat, reply: Reply)
    requires Shape(cfg, State(w, pc)) && k < |w.futures| && w.futures[k].phase == Running
    ensures Shape(cfg, State(ResolveFuture(w, k, reply), pc))
    ensures Less(cfg, State(ResolveFuture(w, k, reply), pc), State(w, pc))
  {
    var v := ResolveFuture(w, k, reply);
    FuturesBase(cfg, w, v);
    CreditsUpdate(w.futures, k, v.futures[k]);
    if pc.ResumeSweep? {
      WaitsMono(w.wake, w.futures, v.wake, v.futures, w.armed, pc.at);
    } else if pc.ResumeCheck? || (pc.Blocked? && pc.suspension.Drain?) {
      WaitsMono(w.wake, w.futures, v.wake, v.futures, w.armed, |w.armed|);
    }
  }

  lemma NotifyGood(cfg: Config, w: Walk, pc: Control, k: nat)
    requires Shape(cfg, State(w, pc)) && k < |w.futures| && w.futures[k].phase == Resolved
    ensures Shape(cfg, State(NotifyFuture(w, k), pc))
    ensures Less(cfg, State(NotifyFuture(w, k), pc), State(w, pc))
  {
    var v := NotifyFuture(w, k);
    FuturesBase(cfg, w, v);
    CreditsUpdate(w.futures, k, v.futures[k]);
    if pc.ResumeSweep? {
      WaitsMono(w.wake, w.futures, v.wake, v.futures, w.armed, pc.at);
    } else if pc.ResumeCheck? || (pc.Blocked? && pc.suspension.Drain?) {
      WaitsMono(w.wake, w.futures, v.wake, v.futures, w.armed, |w.armed|);
    }
  }

  lemma StepGood(cfg: Config, s: State, l: Label, t: State)
    requires Shape(cfg, s) && Step(cfg, s, l, t)
    ensures Shape(cfg, t) && Less(cfg, t, s)
  {
    match l
    case Main => MainGood(cfg, s);
    case Resolve(k, reply) => ResolveGood(cfg, s.walk, s.pc, k, reply);
    case Notify(k) => NotifyGood(cfg, s.walk, s.pc, k);
    case GiveUp => FinishGood(cfg, s.walk, Outcome.Cancelled, Origin.GaveUp);
  }

  // ----- what holds of every run

  lemma {:induction false} RunShape(cfg: Config, states: seq<State>, labels: seq<Label>, i: nat)
    requires Run(cfg, states, labels) && i < |states|
    ensures Shape(cfg, states[i])
  {
    if i > 0 {
      RunShape(cfg, states, labels, i - 1);
      StepGood(cfg, states[i - 1], labels[i - 1], states[i]);
    }
  }

  /** No wake-up is lost: a goroutine blocked on `wake` finds a token there, or
      some launched exchange has yet to post one. */
  lemma NoLostWakeUp(cfg: Config, states: seq<State>, labels: seq<Label>, i: nat)
    requires Run(cfg, states, labels) && i < |states| && states[i].pc.Blocked?
    ensures states[i].walk.wake || exists k :: 0 <= k < |states[i].walk.futures| && states[i].walk.futures[k].phase != Notified
  {
    RunShape(cfg, states, labels, i);
    var w := states[i].walk;
    if states[i].pc.suspension.Drain? && !w.wake {
      assert Waits(w.wake, w.futures, w.armed[0]);
      var f :| f in w.armed[0].futures && Unfinished(w.futures, f);
      assert w.futures[f].phase != Notified;
    }
  }

  /** A request that is not finished can always move: the goroutine itself, or an
      exchange that has still to deliver. */
  lemma NeverStuck(cfg: Config, states: seq<State>, labels: seq<Label>, i: nat)
    requires Run(cfg, states, labels) && i < |states| && !states[i].pc.Finished?
    ensures exists l, t :: Step(cfg, states[i], l, t) && !l.GiveUp?
  {
    RunShape(cfg, states, labels, i);
    var s := states[i];
    if MainEnabled(s) {
      assert Step(cfg, s, Main, MainStep(cfg, s));
    } else {
      var k: nat;
      if s.pc.Blocked? {
        NoLostWakeUp(cfg, states, labels, i);
        k :| 0 <= k < |s.walk.futures| && s.walk.futures[k].phase != Notified;
      } else {
        k := s.pc.pending.future.value;
      }
      var f := s.walk.futures[k];
      if f.phase == Running {
        var reply := cfg.reply(f.rule, f.transport, f.options);
        assert Step(cfg, s, Resolve(k, reply), State(ResolveFuture(s.walk, k, reply), s.pc));
      } else {
        assert Step(cfg, s, Notify(k), State(NotifyFuture(s.walk, k), s.pc));
      }
    }
  }

  /** Every launched exchange has been cancelled when the request is finished. */
  lemma FinishedCancelsAll(cfg: Config, states: seq<State>, labels: seq<Label>, i: nat, k: nat)
    requires Run(cfg, states, labels) && i < |states| && states[i].pc.Finished?
    requires k < |states[i].walk.futures|
    ensures states[i].walk.futures[k].cancelled
  {
    RunShape(cfg, states, labels, i);
  }

  /** However often the walk is suspended and resumed, a rule launches at most
      one exchange. */
  lemma LaunchesOnce(cfg: Config, states: seq<State>, labels: seq<Label>, i: nat, j: nat, k: nat)
    requires Run(cfg, states, labels) && i < |states| && j < k < |states[i].walk.futures|
    ensures states[i].walk.futures[j].rule != states[i].walk.futures[k].rule
  {
    RunShape(cfg, states, labels, i);
  }

  // ----- a bound on the number of steps

  function Span(cfg: Config): nat {
    11 + 2 * |cfg.rules|
  }

  /** All the work left as one number. */
  function Work(cfg: Config, s: State): int {
    Span(cfg) * Weight(cfg, s.walk) + Rank(s.walk, s.pc)
  }

  function StepBound(n: nat): nat {
    (11 + 2 * n) * (5 * n + 5) + 7
  }

  lemma AtLeastOnce(a: nat, d: nat)
    requires d >= 1
    ensures a <= a * d
  {}

  lemma Distribute(a: int, b: int, d: int)
    ensures a * (b + d) == a * b + a * d
  {}

  lemma Lexicographic(a: nat, b: int, c: int, r: int, q: int)
    requires 0 <= r < a && 0 <= q && (b < c || (b == c && r < q))
    ensures a * b + r < a * c + q
  {
    if b < c {
      AtLeastOnce(a, c - b);
      Distribute(a, b, c - b);
      assert b + (c - b) == c;
    }
  }

  lemma NotNegative(a: nat, b: int)
    requires b >= 0
    ensures a * b >= 0
  {}

  lemma RankBounds(cfg: Config, s: State)
    requires Shape(cfg, s)
    ensures 0 <= Rank(s.walk, s.pc) < Span(cfg) && 0 <= Weight(cfg, s.walk)
  {}

  lemma WorkLess(cfg: Config, s: State, t: State)
    requires Shape(cfg, s) && Shape(cfg, t) && Less(cfg, t, s)
    ensures Work(cfg, t) < Work(cfg, s) && Work(cfg, t) >= 0
  {
    RankBounds(cfg, s);
    RankBounds(cfg, t);
    NotNegative(Span(cfg), Weight(cfg, t.walk));
    Lexicographic(Span(cfg), Weight(cfg, t.walk), Weight(cfg, s.walk), Rank(t.walk, t.pc), Rank(s.walk, s.pc));
  }

  lemma {:induction false} RunWork(cfg: Config, states: seq<State>, labels: seq<Label>, i: nat)
    requires Run(cfg, states, labels) && i < |states|
    ensures 0 <= Work(cfg, states[i]) <= StepBound(|cfg.rules|) - i
  {
    if i > 0 {
      RunWork(cfg, states, labels, i - 1);
      RunShape(cfg, states, labels, i - 1);
      StepGood(cfg, states[i - 1], labels[i - 1], states[i]);
      WorkLess(cfg, states[i - 1], states[i]);
    }
  }

  /** Bounded work: no run, under any timing of the exchanges, takes more steps
      than a quadratic function of the number of rules. */
  lemma BoundedWork(cfg: Config, states: seq<State>, labels: seq<Label>)
    requires Run(cfg, states, labels)
    ensures |labels| <= StepBound(|cfg.rules|)
  {
    RunWork(cfg, states, labels, |labels|);
  }
}
