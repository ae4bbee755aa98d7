/**
 A rule list that exposes a rule to the timing of an exchange has a run that
 departs from the rules. Only the rule that asks, the rule that decides on the
 answer and the rules it feeds match; the answer lands after the settle and
 before the test.
 */
module DnsWalkExposed {
  import opened Common
  import opened DnsWalk
  import opened DnsWalkMeaning
  import opened DnsWalkBounds
  import opened DnsWalkCorrect
  import opened DnsWalkTiming

  // ----- states of runs in which nobody gives up

  ghost predicate Reach(cfg: Config, s: State) {
    exists states: seq<State>, labels: seq<Label> ::
      Run(cfg, states, labels) && states[|labels|] == s && GiveUp !in labels
  }

  lemma ReachInit(cfg: Config)
    ensures Reach(cfg, Init(cfg))
  {
    var states: seq<State>, labels: seq<Label> := [Init(cfg)], [];
    assert Run(cfg, states, labels) && states[|labels|] == Init(cfg);
  }

  lemma ReachStep(cfg: Config, s: State, l: Label, t: State)
    requires Reach(cfg, s) && Step(cfg, s, l, t) && l != GiveUp
    ensures Reach(cfg, t)
  {
    var states: seq<State>, labels: seq<Label> :| Run(cfg, states, labels) && states[|labels|] == s && GiveUp !in labels;
    var more, trace := states + [t], labels + [l];
    forall i | 0 <= i < |trace| ensures Step(cfg, more[i], trace[i], more[i + 1]) {
      if i < |labels| {
        assert Step(cfg, states[i], labels[i], states[i + 1]);
      }
    }
    assert Run(cfg, more, trace) && more[|trace|] == t;
  }

  lemma ReachMain(cfg: Config, s: State, t: State)
    requires Reach(cfg, s) && MainEnabled(s) && MainStep(cfg, s) == t
    ensures Reach(cfg, t)
  {
    ReachStep(cfg, s, Main, t);
  }

  // ----- the request

  const ANSWER := Reply(Some(Msg(0, "")), None)

  function ServerOf(a: Action): set<string> {
    match a
    case Evaluate(server, _, _, _) => {server}
    case Route(server, _, _) => {server}
    case _ => {}
  }

  function ServersOf(rules: seq<Rule>, c: seq<nat>): set<string> {
    if c == [] then {} else (if c[0] < |rules| then ServerOf(rules[c[0]].action) else {}) + ServersOf(rules, c[1..])
  }

  lemma {:induction false} HasServer(rules: seq<Rule>, c: seq<nat>, p: nat)
    requires p < |c| && c[p] < |rules|
    ensures ServerOf(rules[c[p]].action) <= ServersOf(rules, c)
  {
    if p > 0 {
      HasServer(rules, c[1..], p - 1);
    }
  }

  /** The tag of the response that rule c[p] of a chain waits to see. */
  function Input(rules: seq<Rule>, t: string, c: seq<nat>, p: nat): string
    requires p < |c|
  {
    if p == 0 then t
    else if c[p - 1] < |rules| && rules[c[p - 1]].action.Evaluate? then rules[c[p - 1]].action.tag
    else ""
  }

  /** It sees that response, or does not match on it. */
  predicate Sees(rules: seq<Rule>, t: string, c: seq<nat>, p: nat, v: View)
    requires p < |c|
  {
    var u := Input(rules, t, c, p);
    if u != "" then Get(v.named, u).Some?
    else c[p] < |rules| && rules[c[p]].anonymous ==> v.anonymous.Some?
  }

  predicate OnlyThese(rules: seq<Rule>, d: nat, t: string, c: seq<nat>, i: nat, v: View) {
    i == d || exists p :: 0 <= p < |c| && c[p] == i && Sees(rules, t, c, p, v)
  }

  /** Rule d matches, each rule of the chain matches once it sees the response it
      is fed, and no other does. */
  function Scenario(rules: seq<Rule>, d: nat, c: seq<nat>, t: string): Config {
    Config(rules,
           (i: nat, v: View) => OnlyThese(rules, d, t, c, i, v),
           map server | server in ServersOf(rules, [d] + c) :: false,
           "default", true, NO_OPTIONS,
           (i: nat, transport: string, o: QueryOptions) => ANSWER)
  }

  ghost predicate Setup(cfg: Config, d: nat, c: seq<nat>, t: string) {
    && Accepted(cfg.rules) && Linked(cfg.rules, c) && Exposed(cfg.rules, d, c[0], t)
    && cfg == Scenario(cfg.rules, d, c, t)
  }

  /** Which rules match, and when. */
  lemma ChainMatches(cfg: Config, d: nat, c: seq<nat>, t: string, p: nat, v: View)
    requires Setup(cfg, d, c, t) && p < |c|
    ensures cfg.matches(c[p], v) <==> Sees(cfg.rules, t, c, p, v)
  {
    if q :| 0 <= q < |c| && c[q] == c[p] && Sees(cfg.rules, t, c, q, v) {
      assert q == p;
    }
  }

  lemma OthersNeverMatch(cfg: Config, d: nat, c: seq<nat>, t: string, i: nat)
    requires Setup(cfg, d, c, t) && i != d && i !in c
    ensures forall v :: !cfg.matches(i, v)
  {}

  lemma DefinerMatches(cfg: Config, d: nat, c: seq<nat>, t: string, v: View)
    requires Setup(cfg, d, c, t)
    ensures cfg.matches(d, v)
  {}

  lemma ServersThere(cfg: Config, d: nat, c: seq<nat>, t: string, i: nat)
    requires Setup(cfg, d, c, t) && (i == d || i in c) && i < |cfg.rules|
    ensures forall server :: server in ServerOf(cfg.rules[i].action) ==> server in cfg.servers && !cfg.servers[server]
  {
    var all := [d] + c;
    var p :| 0 <= p < |all| && all[p] == i;
    HasServer(cfg.rules, all, p);
  }

  lemma SetupReads(cfg: Config, d: nat, c: seq<nat>, t: string)
    requires Setup(cfg, d, c, t)
    ensures ReadsOnlyBindings(cfg)
  {
    forall i, v, w | 0 <= i < |cfg.rules| && Agree(cfg.rules[i], v, w) ensures cfg.matches(i, v) == cfg.matches(i, w) {
      if i == d {
        DefinerMatches(cfg, d, c, t, v);
        DefinerMatches(cfg, d, c, t, w);
      } else if i in c {
        var p :| 0 <= p < |c| && c[p] == i;
        ChainMatches(cfg, d, c, t, p, v);
        ChainMatches(cfg, d, c, t, p, w);
        if p > 0 {
          assert Feeds(cfg.rules[c[p - 1]], cfg.rules[c[p]]);
        }
      } else {
        OthersNeverMatch(cfg, d, c, t, i);
      }
    }
  }

  // ----- walks that have launched nothing, or only wait for the answer

  function At(index: nat, named: map<string, nat>, fs: seq<Future>, armed: seq<Armed>): Walk {
    Walk(index, NO_OPTIONS, None, named, map[], map[], fs, armed, None, 0, false)
  }

  function Asked(cfg: Config, d: nat, t: string, phase: Phase): Future
    requires d < |cfg.rules| && cfg.rules[d].action.Evaluate?
  {
    var a := cfg.rules[d].action;
    Future(d, t, a.server, Apply(NO_OPTIONS, a.options), phase, if phase.Running? then NO_REPLY else ANSWER, false, false)
  }

  /** Nothing is launched, or one exchange is on its way. */
  ghost predicate OnTheWay(named: map<string, nat>, fs: seq<Future>, t: string) {
    || (named == map[] && fs == [])
    || (named == map[t := 0] && |fs| == 1 && fs[0].phase == Running)
  }

  /** The parked rules all wait for that exchange. */
  ghost predicate AllWait(cfg: Config, armed: seq<Armed>, fs: seq<Future>, d: nat) {
    && (armed != [] ==> |fs| == 1)
    && (forall p :: 0 <= p < |armed| ==> IsParked(cfg, armed[p], d) && armed[p].futures != [])
    && (forall p, f :: 0 <= p < |armed| && f in armed[p].futures ==> f == 0)
  }

  /** A race rule other than d, reached without an anonymous response. */
  ghost predicate IsParked(cfg: Config, a: Armed, d: nat) {
    a.rule != d && a.rule < |cfg.rules| && IsRace(cfg.rules[a.rule]) && a.anonymous.None?
  }

  lemma {:induction false} SettleNothing(w: Walk, k: nat)
    requires k <= |w.futures| && forall i :: k <= i < |w.futures| ==> !w.futures[i].Done()
    ensures SettleFrom(w, k) == w
    decreases |w.futures| - k
  {
    if k < |w.futures| {
      SettleNothing(w, k + 1);
    }
  }

  lemma {:induction false} PendingIsZero(w: Walk, tags: seq<string>)
    requires forall t :: t in w.named ==> w.named[t] == 0
    ensures forall f :: f in AllPending(w, tags) ==> f == 0
  {
    if tags != [] {
      PendingIsZero(w, tags[1..]);
    }
  }

  lemma {:induction false} NonePending(w: Walk, tags: seq<string>)
    requires forall t :: t in tags && t in w.named ==> IsDone(w, w.named[t])
    ensures FirstPending(w, tags).None?
  {
    if tags != [] {
      NonePending(w, tags[1..]);
    }
  }

  /** The walk tests a rule that reads a response. */
  lemma ToTest(cfg: Config, w: Walk)
    requires Reach(cfg, State(w, WalkRule)) && w.index < |cfg.rules| && HasBindings(cfg.rules[w.index])
    requires forall i :: 0 <= i < |w.futures| ==> !w.futures[i].Done()
    ensures Reach(cfg, State(w, WalkTest))
  {
    SettleNothing(w, 0);
    ReachMain(cfg, State(w, WalkRule), State(w, WalkTest));
  }

  // ----- passing a rule that does not match

  lemma ReadySkipped(cfg: Config, w: Walk, at: nat, d: nat)
    requires Reach(cfg, State(w, WalkSweep(at))) && at < |w.armed| && |w.futures| == 1 && w.futures[0].phase == Running
    requires AllWait(cfg, w.armed[..|w.armed| - 1], w.futures, d)
    ensures Reach(cfg, State(w, WalkSweep(|w.armed| - 1)))
    decreases |w.armed| - at
  {
    if at < |w.armed| - 1 {
      var a := w.armed[at];
      assert a == w.armed[..|w.armed| - 1][at];
      assert a.futures[0] in a.futures;
      assert !IsReady(w, a);
      ReachMain(cfg, State(w, WalkSweep(at)), State(w, WalkSweep(at + 1)));
      ReadySkipped(cfg, w, at + 1, d);
    }
  }

  /** A race rule with nothing to wait for is judged at once and dropped. */
  lemma ArmedAndDropped(cfg: Config, w: Walk, a: Armed, d: nat)
    requires AllWait(cfg, w.armed, w.futures, d) && (w.armed != [] ==> w.futures[0].phase == Running)
    requires Reach(cfg, State(w.(armed := w.armed + [a]), WalkSweep(0))) && a.futures == []
    requires Judge(cfg, w.(armed := w.armed + [a]), a).Miss?
    ensures Reach(cfg, State(w, WalkRule))
  {
    var v, n := w.(armed := w.armed + [a]), |w.armed|;
    assert v.armed[..n] == w.armed;
    if n > 0 {
      ReadySkipped(cfg, v, 0, d);
    }
    assert Disarm(v, n) == w by {
      assert Without(v.armed, n) == w.armed;
    }
    ReachMain(cfg, State(v, WalkSweep(n)), State(w, WalkSweep(n)));
    ReachMain(cfg, State(w, WalkSweep(n)), State(w, WalkRule));
  }

  lemma ParkRace(cfg: Config, w: Walk, t: string, d: nat) returns (armed: seq<Armed>)
    requires w == At(w.index, w.named, w.futures, w.armed) && OnTheWay(w.named, w.futures, t) && AllWait(cfg, w.armed, w.futures, d)
    requires w.index < |cfg.rules| && IsRace(cfg.rules[w.index]) && Reach(cfg, State(w, WalkRule)) && w.index != d
    requires PendingFor(w, cfg.rules[w.index]) != [] || forall v :: !cfg.matches(w.index, v)
    ensures Reach(cfg, State(At(w.index + 1, w.named, w.futures, armed), WalkRule)) && AllWait(cfg, armed, w.futures, d)
    ensures forall p :: 0 <= p < |w.armed| ==> w.armed[p] in armed
    ensures PendingFor(w, cfg.rules[w.index]) != [] ==> IsArmed(armed, w.index)
  {
    var r := cfg.rules[w.index];
    var a := ArmedFor(w, r);
    PendingIsZero(w, r.tags);
    ToTest(cfg, w);
    var next := At(w.index + 1, w.named, w.futures, w.armed + [a]);
    assert MainStep(cfg, State(w, WalkTest)) == ArmRule(w, r);
    ReachMain(cfg, State(w, WalkTest), ArmRule(w, r));
    assert ArmRule(w, r).walk == next;
    if a.futures == [] {
      armed := w.armed;
      ArmedAndDropped(cfg, At(w.index + 1, w.named, w.futures, w.armed), a, d);
    } else {
      armed := w.armed + [a];
      assert armed[|w.armed|].rule == w.index;
      PendingNeedsFuture(w, r.tags);
    }
  }

  lemma {:induction false} PendingNeedsFuture(w: Walk, tags: seq<string>)
    requires AllPending(w, tags) != []
    ensures w.named != map[]
  {
    if tags != [] && !(tags[0] in w.named) {
      PendingNeedsFuture(w, tags[1..]);
    }
  }

  lemma PassOrdinary(cfg: Config, w: Walk)
    requires w == At(w.index, w.named, w.futures, w.armed) && Reach(cfg, State(w, WalkRule))
    requires w.index < |cfg.rules| && !IsRace(cfg.rules[w.index]) && forall v :: !cfg.matches(w.index, v)
    requires forall t :: t in cfg.rules[w.index].tags ==> t !in w.named
    requires forall i :: 0 <= i < |w.futures| ==> !w.futures[i].Done()
    ensures Reach(cfg, State(At(w.index + 1, w.named, w.futures, w.armed), WalkRule))
  {
    var r := cfg.rules[w.index];
    var next := State(At(w.index + 1, w.named, w.futures, w.armed), WalkRule);
    assert MatchAndAct(cfg, w, r) == next;
    if HasBindings(r) {
      ToTest(cfg, w);
      NonePending(w, r.tags);
      ReachMain(cfg, State(w, WalkTest), next);
    } else {
      ReachMain(cfg, State(w, WalkRule), next);
    }
  }

  /** A rule that never matches is passed, unless it waits for the answer. */
  lemma PassOver(cfg: Config, w: Walk, t: string, d: nat) returns (armed: seq<Armed>)
    requires w == At(w.index, w.named, w.futures, w.armed) && OnTheWay(w.named, w.futures, t) && AllWait(cfg, w.armed, w.futures, d)
    requires Reach(cfg, State(w, WalkRule)) && w.index < |cfg.rules| && w.index != d
    requires forall v :: !cfg.matches(w.index, v)
    requires w.futures == [] || !WaitsFor(cfg.rules[w.index], t)
    ensures Reach(cfg, State(At(w.index + 1, w.named, w.futures, armed), WalkRule)) && AllWait(cfg, armed, w.futures, d)
    ensures forall p :: 0 <= p < |w.armed| ==> w.armed[p] in armed
  {
    if IsRace(cfg.rules[w.index]) {
      armed := ParkRace(cfg, w, t, d);
    } else {
      armed := w.armed;
      PassOrdinary(cfg, w);
    }
  }

  // ----- up to the exposed rule

  lemma {:induction false} IdleUpTo(cfg: Config, d: nat, c: seq<nat>, t: string, i: nat)
    requires Setup(cfg, d, c, t) && i <= d
    ensures Reach(cfg, State(At(i, map[], [], []), WalkRule))
  {
    if i == 0 {
      ReachInit(cfg);
    } else {
      IdleUpTo(cfg, d, c, t, i - 1);
      OthersNeverMatch(cfg, d, c, t, i - 1);
      var armed := PassOver(cfg, At(i - 1, map[], [], []), t, d);
      assert armed == [];
    }
  }

  lemma Launched(cfg: Config, d: nat, c: seq<nat>, t: string)
    requires Setup(cfg, d, c, t)
    ensures Reach(cfg, State(At(d + 1, map[t := 0], [Asked(cfg, d, t, Running)], []), WalkRule))
  {
    IdleUpTo(cfg, d, c, t, d);
    var w, r := At(d, map[], [], []), cfg.rules[d];
    var next := State(At(d + 1, map[t := 0], [Asked(cfg, d, t, Running)], []), WalkRule);
    DefinerMatches(cfg, d, c, t, CurrentView(w));
    ServersThere(cfg, d, c, t, d);
    assert BindFuture(w, r.action).futures == [Asked(cfg, d, t, Running)];
    assert MatchAndAct(cfg, w, r) == next;
    if HasBindings(r) {
      ToTest(cfg, w);
      NonePending(w, r.tags);
      ReachMain(cfg, State(w, WalkTest), next);
    } else {
      ReachMain(cfg, State(w, WalkRule), next);
    }
  }

  lemma {:induction false} WalkedTo(cfg: Config, d: nat, c: seq<nat>, t: string, i: nat) returns (armed: seq<Armed>)
    requires Setup(cfg, d, c, t) && d < i <= c[0]
    ensures Reach(cfg, State(At(i, map[t := 0], [Asked(cfg, d, t, Running)], armed), WalkRule))
    ensures AllWait(cfg, armed, [Asked(cfg, d, t, Running)], d)
  {
    if i == d + 1 {
      armed := [];
      Launched(cfg, d, c, t);
    } else {
      var before := WalkedTo(cfg, d, c, t, i - 1);
      assert !WaitsFor(cfg.rules[i - 1], t);
      OthersNeverMatch(cfg, d, c, t, i - 1);
      armed := PassOver(cfg, At(i - 1, map[t := 0], [Asked(cfg, d, t, Running)], before), t, d);
    }
  }

  lemma AnswerLands(cfg: Config, d: nat, t: string, index: nat, armed: seq<Armed>, pc: Control)
    requires d < |cfg.rules| && cfg.rules[d].action.Evaluate? && cfg.reply(d, cfg.rules[d].action.server, Apply(NO_OPTIONS, cfg.rules[d].action.options)) == ANSWER
    requires Reach(cfg, State(At(index, map[t := 0], [Asked(cfg, d, t, Running)], armed), pc))
    ensures Reach(cfg, State(At(index, map[t := 0], [Asked(cfg, d, t, Resolved)], armed), pc))
  {
    var w := At(index, map[t := 0], [Asked(cfg, d, t, Running)], armed);
    var v := At(index, map[t := 0], [Asked(cfg, d, t, Resolved)], armed);
    assert ResolveFuture(w, 0, ANSWER) == v;
    ReachStep(cfg, State(w, pc), Resolve(0, ANSWER), State(v, pc));
  }

  /** An ordinary exposed rule no longer waits and does not see the answer. */
  lemma OrdinaryMisses(cfg: Config, d: nat, c: seq<nat>, t: string) returns (armed: seq<Armed>)
    requires Setup(cfg, d, c, t) && !IsRace(cfg.rules[c[0]])
    ensures Reach(cfg, State(At(c[0] + 1, map[t := 0], [Asked(cfg, d, t, Resolved)], armed), WalkRule))
    ensures AllWait(cfg, armed, [Asked(cfg, d, t, Resolved)], d) && !IsArmed(armed, c[0])
  {
    var j := c[0];
    armed := WalkedTo(cfg, d, c, t, j);
    var w, v := At(j, map[t := 0], [Asked(cfg, d, t, Running)], armed), At(j, map[t := 0], [Asked(cfg, d, t, Resolved)], armed);
    ToTest(cfg, w);
    AnswerLands(cfg, d, t, j, armed, WalkTest);
    NonePending(v, cfg.rules[j].tags);
    ChainMatches(cfg, d, c, t, 0, CurrentView(v));
    var next := State(At(j + 1, map[t := 0], [Asked(cfg, d, t, Resolved)], armed), WalkRule);
    ReachMain(cfg, State(v, WalkTest), next);
    NotArmedYet(cfg, w, j);
  }

  /** A rule the walk is at has not been parked. */
  lemma NotArmedYet(cfg: Config, w: Walk, j: nat)
    requires Reach(cfg, State(w, WalkRule)) && w.index <= j
    ensures !IsArmed(w.armed, j)
  {
    var states: seq<State>, labels: seq<Label> :| Run(cfg, states, labels) && states[|labels|] == State(w, WalkRule) && GiveUp !in labels;
    RunShape(cfg, states, labels, |labels|);
    forall p | 0 <= p < |w.armed| ensures w.armed[p].rule != j {
      assert ValidArmed(w.armed[p], w.index, |w.futures|);
    }
  }

  // ----- an exposed race rule

  /** A parked rule that waits brings the walk to a resume sweep. */
  lemma {:induction false} ToSweep(cfg: Config, d: nat, c: seq<nat>, t: string, i: nat, armed: seq<Armed>)
    returns (u: Suspension, index: nat, waiting: seq<Armed>)
    requires Setup(cfg, d, c, t) && IsRace(cfg.rules[c[0]]) && c[0] < i <= |cfg.rules| && IsArmed(armed, c[0])
    requires Reach(cfg, State(At(i, map[t := 0], [Asked(cfg, d, t, Running)], armed), WalkRule))
    requires AllWait(cfg, armed, [Asked(cfg, d, t, Running)], d)
    ensures Reach(cfg, State(At(index, map[t := 0], [Asked(cfg, d, t, Running)], waiting), ResumeSettle(u)))
    ensures AllWait(cfg, waiting, [Asked(cfg, d, t, Running)], d) && !u.Ready? && c[0] < index
    decreases |cfg.rules| - i
  {
    var w := At(i, map[t := 0], [Asked(cfg, d, t, Running)], armed);
    if i == |cfg.rules| {
      u, index, waiting := Drain, i, armed;
      ReachMain(cfg, State(w, WalkRule), State(w, ResumeSettle(Drain)));
    } else if WaitsFor(cfg.rules[i], t) {
      u, index, waiting := Await(0), i, armed;
      ToTest(cfg, w);
      FirstIsZero(w, cfg.rules[i].tags, t);
      ReachMain(cfg, State(w, WalkTest), State(w, ResumeSettle(Await(0))));
    } else {
      AloneIfRace(cfg, d, c, t);
      OthersNeverMatch(cfg, d, c, t, i);
      var more := PassOver(cfg, w, t, d);
      ArmedStays(armed, more, c[0]);
      u, index, waiting := ToSweep(cfg, d, c, t, i + 1, more);
    }
  }

  /** A race rule feeds none. */
  lemma AloneIfRace(cfg: Config, d: nat, c: seq<nat>, t: string)
    requires Setup(cfg, d, c, t) && IsRace(cfg.rules[c[0]])
    ensures c == [c[0]]
  {
    assert |c| > 1 ==> Feeds(cfg.rules[c[1 - 1]], cfg.rules[c[1]]);
  }

  lemma ArmedStays(armed: seq<Armed>, more: seq<Armed>, j: nat)
    requires IsArmed(armed, j) && forall p :: 0 <= p < |armed| ==> armed[p] in more
    ensures IsArmed(more, j)
  {
    var p :| 0 <= p < |armed| && armed[p].rule == j;
    var q :| 0 <= q < |more| && more[q] == armed[p];
  }

  lemma {:induction false} FirstIsZero(w: Walk, tags: seq<string>, t: string)
    requires w.named == map[t := 0] && !IsDone(w, 0) && t in tags
    ensures FirstPending(w, tags) == Some(0)
  {
    if tags[0] != t {
      FirstIsZero(w, tags[1..], t);
    }
  }

  /** In the sweep every parked rule is ready, sees nothing, and is dropped. */
  lemma {:induction false} SweptAway(cfg: Config, d: nat, c: seq<nat>, t: string, u: Suspension, index: nat, armed: seq<Armed>)
    requires Setup(cfg, d, c, t) && IsRace(cfg.rules[c[0]]) && AllWait(cfg, armed, [Asked(cfg, d, t, Resolved)], d)
    requires Reach(cfg, State(At(index, map[t := 0], [Asked(cfg, d, t, Resolved)], armed), ResumeSweep(u, 0)))
    ensures Reach(cfg, State(At(index, map[t := 0], [Asked(cfg, d, t, Resolved)], []), ResumeSweep(u, 0)))
    decreases |armed|
  {
    if armed != [] {
      var w := At(index, map[t := 0], [Asked(cfg, d, t, Resolved)], armed);
      assert IsReady(w, armed[0]);
      AloneIfRace(cfg, d, c, t);
      ChainMatches(cfg, d, c, t, 0, ArmedView(w, armed[0]));
      if armed[0].rule != c[0] {
        OthersNeverMatch(cfg, d, c, t, armed[0].rule);
      }
      var rest := armed[1..];
      assert Without(armed, 0) == rest;
      ReachMain(cfg, State(w, ResumeSweep(u, 0)), State(At(index, map[t := 0], [Asked(cfg, d, t, Resolved)], rest), ResumeSweep(u, 0)));
      SweptAway(cfg, d, c, t, u, index, rest);
    }
  }

  /** An exposed race rule is dropped although it has an answer. */
  lemma RaceMisses(cfg: Config, d: nat, c: seq<nat>, t: string) returns (u: Suspension, index: nat)
    requires Setup(cfg, d, c, t) && IsRace(cfg.rules[c[0]])
    ensures Reach(cfg, State(At(index, map[t := 0], [Asked(cfg, d, t, Resolved)], []), ResumeSweep(u, 0)))
    ensures c[0] < index && !u.Ready?
  {
    var j := c[0];
    var armed := WalkedTo(cfg, d, c, t, j);
    var w := At(j, map[t := 0], [Asked(cfg, d, t, Running)], armed);
    PendingCovers(w, cfg.rules[j].tags, t);
    armed := ParkRace(cfg, w, t, d);
    var waiting;
    u, index, waiting := ToSweep(cfg, d, c, t, j + 1, armed);
    w := At(index, map[t := 0], [Asked(cfg, d, t, Running)], waiting);
    SettleNothing(w, 0);
    ReachMain(cfg, State(w, ResumeSettle(u)), State(w, ResumeSweep(u, 0)));
    AnswerLands(cfg, d, t, index, waiting, ResumeSweep(u, 0));
    SweptAway(cfg, d, c, t, u, index, waiting);
  }

  // ----- from there the request falls through

  /** The last rule of the chain returns the anonymous response without matching
      on it. */
  ghost predicate Blindly(rules: seq<Rule>, t: string, c: seq<nat>) {
    && |c| > 1 && Input(rules, t, c, |c| - 1) == ""
    && c[|c| - 1] < |rules| && rules[c[|c| - 1]].action.Respond? && !rules[c[|c| - 1]].anonymous
  }

  /** The request ends with the default query under unchanged options, or the
      last rule of the chain finds no response to return. */
  ghost predicate LatePc(cfg: Config, t: string, c: seq<nat>, pc: Control) {
    match pc
    case Finished(o, g) =>
      || (g == FromDefault && o.Query? && o.options == NO_OPTIONS)
      || (|c| > 0 && Blindly(cfg.rules, t, c) && g == FromRule(c[|c| - 1]) && o == MissingResponse)
    case WaitReply(_) => false
    case Blocked(u) => !u.Ready?
    case _ => PendingOf(pc).Some? ==> PendingOf(pc).value == Pending(FromDefault, cfg.fallback, NO_OPTIONS, None)
  }

  /** No rule that the exposed one feeds, at one remove or more, can see what it
      waits for. */
  ghost predicate Starved(cfg: Config, t: string, c: seq<nat>, w: Walk) {
    && w.anonymous.None?
    && forall p :: 0 < p < |c| && Input(cfg.rules, t, c, p) != "" ==> Unseen(w, Input(cfg.rules, t, c, p))
  }

  ghost predicate Unseen(w: Walk, u: string) {
    u !in w.responses && forall k :: 0 <= k < |w.futures| ==> w.futures[k].tag != u
  }

  /** The walk is past the exposed rule, and the rules it feeds are starved. */
  ghost predicate Late(cfg: Config, d: nat, t: string, c: seq<nat>, s: State) {
    && |c| > 0 && s.walk.index > c[0] && s.walk.options == NO_OPTIONS && Starved(cfg, t, c, s.walk)
    && (forall p :: 0 <= p < |s.walk.armed| ==> IsParked(cfg, s.walk.armed[p], d) && s.walk.armed[p].rule != c[0])
    && LatePc(cfg, t, c, s.pc) && TestsBindings(cfg, s)
  }

  lemma {:induction false} SettleUnseen(w: Walk, k: nat, u: string)
    requires Unseen(w, u) && k <= |w.futures|
    ensures Unseen(SettleFrom(w, k), u)
    decreases |w.futures| - k
  {
    if k < |w.futures| {
      SettleUnseen(SettleOne(w, k), k + 1, u);
    }
  }

  lemma SettleStarved(cfg: Config, t: string, c: seq<nat>, w: Walk)
    requires Starved(cfg, t, c, w)
    ensures Starved(cfg, t, c, Settle(w))
  {
    SettleProgress(w);
    forall p | 0 < p < |c| && Input(cfg.rules, t, c, p) != "" ensures Unseen(Settle(w), Input(cfg.rules, t, c, p)) {
      SettleUnseen(w, 0, Input(cfg.rules, t, c, p));
    }
  }

  /** A later rule does not match, unless it returns what it does not match on. */
  lemma StarvedMiss(cfg: Config, d: nat, c: seq<nat>, t: string, w: Walk, i: nat, v: View)
    requires Setup(cfg, d, c, t) && Starved(cfg, t, c, w) && i != d && i != c[0] && i < |cfg.rules|
    requires v.named == w.responses && v.anonymous.None?
    ensures cfg.matches(i, v) ==> Blindly(cfg.rules, t, c) && i == c[|c| - 1]
  {
    if i in c {
      var p :| 0 <= p < |c| && c[p] == i;
      ChainMatches(cfg, d, c, t, p, v);
      assert Feeds(cfg.rules[c[p - 1]], cfg.rules[c[p]]);
      if p < |c| - 1 {
        assert Feeds(cfg.rules[c[p + 1 - 1]], cfg.rules[c[p + 1]]);
      }
    } else {
      OthersNeverMatch(cfg, d, c, t, i);
    }
  }

  lemma LateAct(cfg: Config, d: nat, c: seq<nat>, t: string, w: Walk, pc: Control)
    requires Setup(cfg, d, c, t) && Late(cfg, d, t, c, State(w, pc)) && w.index < |cfg.rules| && !IsRace(cfg.rules[w.index])
    ensures Late(cfg, d, t, c, MatchAndAct(cfg, w, cfg.rules[w.index]))
  {
    var r := cfg.rules[w.index];
    StarvedMiss(cfg, d, c, t, w, w.index, CurrentView(w));
    if cfg.matches(w.index, CurrentView(w)) {
      RespondBlindly(cfg, d, c, t, w);
    } else {
      assert Late(cfg, d, t, c, Advance(w));
    }
  }

  lemma RespondBlindly(cfg: Config, d: nat, c: seq<nat>, t: string, w: Walk)
    requires Setup(cfg, d, c, t) && Blindly(cfg.rules, t, c) && w.index == c[|c| - 1]
    requires w.index > c[0] && w.options == NO_OPTIONS && Starved(cfg, t, c, w)
    requires forall p :: 0 <= p < |w.armed| ==> IsParked(cfg, w.armed[p], d) && w.armed[p].rule != c[0]
    ensures Late(cfg, d, t, c, ActRespond(w, cfg.rules[w.index]))
  {
    var p := |c| - 1;
    assert Feeds(cfg.rules[c[p - 1]], cfg.rules[c[p]]);
    if w.armed == [] {
      var end := Finish(w, MissingResponse, FromRule(w.index));
      assert ActRespond(w, cfg.rules[w.index]) == end;
      FinishStarved(cfg, t, c, w, MissingResponse, FromRule(w.index));
    }
  }

  lemma FinishStarved(cfg: Config, t: string, c: seq<nat>, w: Walk, o: Outcome, g: Origin)
    requires Starved(cfg, t, c, w)
    ensures Starved(cfg, t, c, Finish(w, o, g).walk)
  {
    forall p | 0 < p < |c| && Input(cfg.rules, t, c, p) != "" ensures Unseen(Finish(w, o, g).walk, Input(cfg.rules, t, c, p)) {
      assert Unseen(w, Input(cfg.rules, t, c, p));
    }
  }

  lemma LateRule(cfg: Config, d: nat, c: seq<nat>, t: string, w: Walk)
    requires Setup(cfg, d, c, t) && Late(cfg, d, t, c, State(w, WalkRule))
    ensures Late(cfg, d, t, c, WalkRuleStep(cfg, w))
  {
    if w.index < |cfg.rules| {
      if HasBindings(cfg.rules[w.index]) {
        SettleProgress(w);
        SettleStarved(cfg, t, c, w);
      } else {
        LateAct(cfg, d, c, t, w, WalkRule);
      }
    }
  }

  lemma LateTest(cfg: Config, d: nat, c: seq<nat>, t: string, w: Walk)
    requires Setup(cfg, d, c, t) && Late(cfg, d, t, c, State(w, WalkTest))
    ensures Late(cfg, d, t, c, WalkTestStep(cfg, w))
  {
    if w.index < |cfg.rules| {
      var r := cfg.rules[w.index];
      if r.race {
        LatePark(cfg, d, c, t, w);
      } else if AwaitFor(w, r).None? {
        LateAct(cfg, d, c, t, w, WalkTest);
      }
    }
  }

  lemma LatePark(cfg: Config, d: nat, c: seq<nat>, t: string, w: Walk)
    requires Setup(cfg, d, c, t) && Late(cfg, d, t, c, State(w, WalkTest)) && w.index < |cfg.rules| && IsRace(cfg.rules[w.index])
    ensures Late(cfg, d, t, c, ArmRule(w, cfg.rules[w.index]))
  {
    var a := ArmedFor(w, cfg.rules[w.index]);
    assert IsParked(cfg, a, d);
  }

  lemma LateSweep(cfg: Config, d: nat, c: seq<nat>, t: string, w: Walk, pc: Control, u: Suspension, at: nat)
    requires Setup(cfg, d, c, t) && Late(cfg, d, t, c, State(w, pc)) && LatePc(cfg, t, c, ResumeSweep(u, at))
    ensures Late(cfg, d, t, c, WalkSweepStep(cfg, w, at)) && Late(cfg, d, t, c, ResumeSweepStep(cfg, w, u, at))
  {
    if at < |w.armed| {
      ParkedMiss(cfg, d, c, t, w, w.armed[at]);
      assert Starved(cfg, t, c, Disarm(w, at));
    }
  }

  lemma ParkedMiss(cfg: Config, d: nat, c: seq<nat>, t: string, w: Walk, a: Armed)
    requires Setup(cfg, d, c, t) && Starved(cfg, t, c, w) && IsParked(cfg, a, d) && a.rule != c[0]
    ensures Judge(cfg, w, a).Miss?
  {
    StarvedMiss(cfg, d, c, t, w, a.rule, ArmedView(w, a));
    BlindIsOrdinary(cfg, t, c, a.rule);
  }

  /** Such a rule reads nothing, so it is not parked. */
  lemma BlindIsOrdinary(cfg: Config, t: string, c: seq<nat>, i: nat)
    requires Accepted(cfg.rules) && Linked(cfg.rules, c) && i < |cfg.rules| && IsRace(cfg.rules[i])
    ensures !(Blindly(cfg.rules, t, c) && i == c[|c| - 1])
  {
    if Blindly(cfg.rules, t, c) {
      var p := |c| - 1;
      assert Feeds(cfg.rules[c[p - 1]], cfg.rules[c[p]]);
    }
  }

  lemma LateStep(cfg: Config, d: nat, c: seq<nat>, t: string, s: State, l: Label, s': State)
    requires Setup(cfg, d, c, t) && Late(cfg, d, t, c, s) && Step(cfg, s, l, s') && l != GiveUp
    ensures Late(cfg, d, t, c, s')
  {
    if l.Main? {
      match s.pc
      case WalkRule => LateRule(cfg, d, c, t, s.walk);
      case WalkTest => LateTest(cfg, d, c, t, s.walk);
      case WalkSweep(at) => LateSweep(cfg, d, c, t, s.walk, s.pc, Drain, at);
      case ResumeSettle(u) =>
        SettleProgress(s.walk);
        SettleStarved(cfg, t, c, s.walk);
      case ResumeSweep(u, at) => LateSweep(cfg, d, c, t, s.walk, s.pc, u, at);
      case ResumeCheck(u) => LateCheck(cfg, d, c, t, s, u);
      case Blocked(u) =>
    } else {
      LateDelivery(cfg, d, c, t, s, l, s');
    }
  }

  lemma LateCheck(cfg: Config, d: nat, c: seq<nat>, t: string, s: State, u: Suspension)
    requires Late(cfg, d, t, c, s) && s.pc == ResumeCheck(u)
    ensures Late(cfg, d, t, c, ResumeCheckStep(cfg, s.walk, u))
  {
    if u.Ready? {
      var end := ResumeCheckStep(cfg, s.walk, u);
      FinishStarved(cfg, t, c, s.walk, end.pc.outcome, end.pc.origin);
    }
  }

  lemma LateDelivery(cfg: Config, d: nat, c: seq<nat>, t: string, s: State, l: Label, s': State)
    requires Late(cfg, d, t, c, s) && Step(cfg, s, l, s') && (l.Resolve? || l.Notify?)
    ensures Late(cfg, d, t, c, s')
  {
    forall p | 0 < p < |c| && Input(cfg.rules, t, c, p) != "" ensures Unseen(s'.walk, Input(cfg.rules, t, c, p)) {
      assert Unseen(s.walk, Input(cfg.rules, t, c, p));
    }
  }

  /** Some exchange or the walk itself always moves on, so the request ends. */
  lemma FallsThrough(cfg: Config, d: nat, c: seq<nat>, t: string, s: State) returns (end: State)
    requires Setup(cfg, d, c, t) && Reach(cfg, s) && Late(cfg, d, t, c, s)
    ensures Reach(cfg, end) && end.pc.Finished? && Late(cfg, d, t, c, end)
    decreases Work(cfg, s)
  {
    if s.pc.Finished? {
      end := s;
    } else {
      var l, next := MovesOn(cfg, s);
      LateStep(cfg, d, c, t, s, l, next);
      end := FallsThrough(cfg, d, c, t, next);
    }
  }

  lemma MovesOn(cfg: Config, s: State) returns (l: Label, next: State)
    requires Reach(cfg, s) && !s.pc.Finished?
    ensures Step(cfg, s, l, next) && l != GiveUp && Reach(cfg, next)
    ensures 0 <= Work(cfg, next) < Work(cfg, s)
  {
    var states: seq<State>, labels: seq<Label> :| Run(cfg, states, labels) && states[|labels|] == s && GiveUp !in labels;
    NeverStuck(cfg, states, labels, |labels|);
    l, next :| Step(cfg, s, l, next) && !l.GiveUp?;
    ReachStep(cfg, s, l, next);
    RunShape(cfg, states, labels, |labels|);
    StepGood(cfg, s, l, next);
    WorkLess(cfg, s, next);
  }

  /** The tag the exposed rule missed is not one that the chain waits for. */
  lemma InputsDiffer(cfg: Config, d: nat, c: seq<nat>, t: string, p: nat)
    requires Setup(cfg, d, c, t) && 0 < p < |c| && Input(cfg.rules, t, c, p) != ""
    ensures Input(cfg.rules, t, c, p) != t
  {
    assert Feeds(cfg.rules[c[p - 1]], cfg.rules[c[p]]);
    assert Defines(cfg.rules[c[p - 1]], Input(cfg.rules, t, c, p));
  }

  /** The state after the exposed rule missed is such a state. */
  lemma MissedIsLate(cfg: Config, d: nat, c: seq<nat>, t: string, index: nat, armed: seq<Armed>, pc: Control)
    requires Setup(cfg, d, c, t) && index > c[0] && AllWait(cfg, armed, [Asked(cfg, d, t, Resolved)], d) && !IsArmed(armed, c[0])
    requires pc == WalkRule || (pc.ResumeSweep? && !pc.suspension.Ready?)
    ensures Late(cfg, d, t, c, State(At(index, map[t := 0], [Asked(cfg, d, t, Resolved)], armed), pc))
  {
    var w := At(index, map[t := 0], [Asked(cfg, d, t, Resolved)], armed);
    forall p | 0 < p < |c| && Input(cfg.rules, t, c, p) != "" ensures Unseen(w, Input(cfg.rules, t, c, p)) {
      InputsDiffer(cfg, d, c, t, p);
    }
    assert forall p :: 0 <= p < |armed| ==> armed[p].rule != c[0];
  }

  // ----- what the rules mean

  function Known(cfg: Config, d: nat, t: string): Sync
    requires d < |cfg.rules| && cfg.rules[d].action.Evaluate?
  {
    var a := cfg.rules[d].action;
    Sync(NO_OPTIONS, None, map[t := Call(d, a.server, Apply(NO_OPTIONS, a.options))])
  }

  /** What the interpreter knows on reaching rule c[p]. */
  ghost function After(cfg: Config, d: nat, c: seq<nat>, t: string, p: nat): Sync
    requires Setup(cfg, d, c, t) && p < |c|
  {
    if p == 0 then Known(cfg, d, t)
    else
      assert Feeds(cfg.rules[c[p - 1]], cfg.rules[c[p]]);
      SyncEvaluate(cfg, c[p - 1], After(cfg, d, c, t, p - 1), cfg.rules[c[p - 1]].action)
  }

  lemma {:induction false} SyncBefore(cfg: Config, d: nat, c: seq<nat>, t: string, i: nat)
    requires Setup(cfg, d, c, t) && i <= c[0]
    ensures SyncAt(cfg, i) == Some(if i <= d then SyncInit(cfg) else Known(cfg, d, t))
  {
    if i > 0 {
      SyncBefore(cfg, d, c, t, i - 1);
      if i - 1 == d {
        DefinerMatches(cfg, d, c, t, SyncView(cfg, SyncInit(cfg)));
        ServersThere(cfg, d, c, t, d);
        assert SyncEvaluate(cfg, d, SyncInit(cfg), cfg.rules[d].action) == Known(cfg, d, t);
      } else {
        OthersNeverMatch(cfg, d, c, t, i - 1);
      }
    }
  }

  /** The interpreter sees what each rule of the chain is fed. */
  lemma AfterSees(cfg: Config, d: nat, c: seq<nat>, t: string, p: nat)
    requires Setup(cfg, d, c, t) && p < |c|
    ensures After(cfg, d, c, t, p).options == NO_OPTIONS
    ensures cfg.matches(c[p], SyncView(cfg, After(cfg, d, c, t, p)))
    ensures p > 0 && Input(cfg.rules, t, c, p) == "" ==>
              After(cfg, d, c, t, p).anonymous.Some? && CallView(cfg, After(cfg, d, c, t, p).anonymous.value).Some?
    decreases p
  {
    var y := After(cfg, d, c, t, p);
    ChainMatches(cfg, d, c, t, p, SyncView(cfg, y));
    if p == 0 {
      assert Get(SyncView(cfg, y).named, t) == ANSWER.response;
    } else {
      AfterSees(cfg, d, c, t, p - 1);
      assert Feeds(cfg.rules[c[p - 1]], cfg.rules[c[p]]);
      ServersThere(cfg, d, c, t, c[p - 1]);
      var u := Input(cfg.rules, t, c, p);
      if u != "" {
        assert Get(SyncView(cfg, y).named, u) == ANSWER.response;
      }
    }
  }

  lemma {:induction false} SyncAlong(cfg: Config, d: nat, c: seq<nat>, t: string, p: nat, i: nat)
    requires Setup(cfg, d, c, t) && 0 < p < |c| && c[p - 1] < i <= c[p]
    ensures SyncAt(cfg, i) == Some(After(cfg, d, c, t, p))
    decreases p, i
  {
    if i == c[p - 1] + 1 {
      if p == 1 {
        SyncBefore(cfg, d, c, t, c[0]);
      } else {
        SyncAlong(cfg, d, c, t, p - 1, c[p - 1]);
      }
      SyncLink(cfg, d, c, t, p);
    } else {
      SyncAlong(cfg, d, c, t, p, i - 1);
      BetweenLinks(cfg.rules, c, p, i - 1);
      SyncSkips(cfg, d, c, t, i - 1, After(cfg, d, c, t, p));
    }
  }

  lemma SyncSkips(cfg: Config, d: nat, c: seq<nat>, t: string, i: nat, y: Sync)
    requires Setup(cfg, d, c, t) && i != d && i !in c && i < |cfg.rules| && SyncAt(cfg, i) == Some(y)
    ensures SyncAt(cfg, i + 1) == Some(y)
  {
    OthersNeverMatch(cfg, d, c, t, i);
    assert SyncRule(cfg, i, y) == Next(y);
  }

  lemma SyncLink(cfg: Config, d: nat, c: seq<nat>, t: string, p: nat)
    requires Setup(cfg, d, c, t) && 0 < p < |c| && SyncAt(cfg, c[p - 1]) == Some(After(cfg, d, c, t, p - 1))
    ensures SyncAt(cfg, c[p - 1] + 1) == Some(After(cfg, d, c, t, p))
  {
    AfterSees(cfg, d, c, t, p - 1);
    assert Feeds(cfg.rules[c[p - 1]], cfg.rules[c[p]]);
  }

  lemma BetweenLinks(rules: seq<Rule>, c: seq<nat>, p: nat, i: nat)
    requires Linked(rules, c) && 0 < p < |c| && c[p - 1] < i < c[p]
    ensures i !in c
  {
    forall q | 0 <= q < |c| ensures c[q] != i {
      if q < p - 1 {
        assert c[q] < c[p - 1];
      } else if q > p {
        assert c[p] < c[q];
      }
    }
  }

  lemma SyncMatches(cfg: Config, d: nat, c: seq<nat>, t: string, p: nat)
    requires Setup(cfg, d, c, t) && p < |c|
    ensures SyncAt(cfg, c[p]) == Some(After(cfg, d, c, t, p)) && cfg.matches(c[p], SyncView(cfg, After(cfg, d, c, t, p)))
    ensures After(cfg, d, c, t, p).options == NO_OPTIONS
  {
    AfterSees(cfg, d, c, t, p);
    if p == 0 {
      SyncBefore(cfg, d, c, t, c[0]);
    } else {
      SyncAlong(cfg, d, c, t, p, c[p]);
    }
  }

  /** The default query with unchanged options is not what these rules mean. */
  lemma DefaultIsWrong(cfg: Config, d: nat, c: seq<nat>, t: string, o: Outcome)
    requires Setup(cfg, d, c, t) && Chain(cfg.rules, c) && o.Query? && o.options == NO_OPTIONS
    ensures !Correct(cfg, o, FromDefault)
  {
    var k := c[|c| - 1];
    SyncMatches(cfg, d, c, t, |c| - 1);
    if IsRace(cfg.rules[k]) {
      RaceAnswers(cfg, d, c, t);
      assert !RacesMissBefore(cfg, |cfg.rules|);
    } else if cfg.rules[k].action.SetOptions? {
      ChangedOptions(cfg, d, c, t, |cfg.rules|);
      MeaningFromHere(cfg, |cfg.rules|);
    } else {
      RuleStops(cfg, d, c, t);
      MeaningFromHere(cfg, k);
    }
  }

  /** Nor is a missing response. */
  lemma MissingIsWrong(cfg: Config, d: nat, c: seq<nat>, t: string)
    requires Setup(cfg, d, c, t) && Chain(cfg.rules, c) && Blindly(cfg.rules, t, c)
    ensures !Correct(cfg, MissingResponse, FromRule(c[|c| - 1]))
  {
    var q := |c| - 1;
    assert Feeds(cfg.rules[c[q - 1]], cfg.rules[c[q]]);
    SyncMatches(cfg, d, c, t, q);
    AfterSees(cfg, d, c, t, q);
    MeaningFromHere(cfg, c[q]);
  }

  lemma RouteResolves(cfg: Config, d: nat, c: seq<nat>, t: string, o: QueryOptions)
    requires Setup(cfg, d, c, t) && cfg.rules[c[|c| - 1]].action.Route?
    ensures ResolveRoute(cfg, cfg.rules[c[|c| - 1]].action.server, cfg.rules[c[|c| - 1]].action.options, o).Some?
  {
    ServersThere(cfg, d, c, t, c[|c| - 1]);
  }

  lemma RaceAnswers(cfg: Config, d: nat, c: seq<nat>, t: string)
    requires Setup(cfg, d, c, t) && Chain(cfg.rules, c) && IsRace(cfg.rules[c[|c| - 1]])
    ensures SyncAt(cfg, c[|c| - 1]).Some? && RaceVerdict(cfg, c[|c| - 1], SyncAt(cfg, c[|c| - 1]).value).Some?
  {
    SyncMatches(cfg, d, c, t, |c| - 1);
    if cfg.rules[c[|c| - 1]].action.Route? {
      RouteResolves(cfg, d, c, t, NO_OPTIONS);
    }
  }

  lemma RuleStops(cfg: Config, d: nat, c: seq<nat>, t: string)
    requires Setup(cfg, d, c, t) && Chain(cfg.rules, c)
    requires !IsRace(cfg.rules[c[|c| - 1]]) && !cfg.rules[c[|c| - 1]].action.SetOptions?
    ensures SyncAt(cfg, c[|c| - 1]).Some? && SyncRule(cfg, c[|c| - 1], SyncAt(cfg, c[|c| - 1]).value).Stop?
  {
    SyncMatches(cfg, d, c, t, |c| - 1);
    if cfg.rules[c[|c| - 1]].action.Route? {
      RouteResolves(cfg, d, c, t, NO_OPTIONS);
    }
  }

  lemma OptionsShow(o: RouteOptions)
    requires o != NO_OPTIONS
    ensures Apply(NO_OPTIONS, o) != NO_OPTIONS
  {}

  lemma {:induction false} ChangedOptions(cfg: Config, d: nat, c: seq<nat>, t: string, i: nat)
    requires Setup(cfg, d, c, t) && !IsRace(cfg.rules[c[|c| - 1]]) && cfg.rules[c[|c| - 1]].action.SetOptions?
    requires c[|c| - 1] < i <= |cfg.rules|
    ensures SyncAt(cfg, i).Some? && SyncAt(cfg, i).value.options != NO_OPTIONS
    decreases i
  {
    if i == c[|c| - 1] + 1 {
      SyncMatches(cfg, d, c, t, |c| - 1);
      OptionsShow(cfg.rules[c[|c| - 1]].action.options);
    } else {
      ChangedOptions(cfg, d, c, t, i - 1);
      OthersNeverMatch(cfg, d, c, t, i - 1);
    }
  }

  // ----- the theorems

  /** A state follows the rules: the answer or the query settled on is correct, or
      else the options and bindings are the interpreter's and no race rule with an
      answer was dropped. */
  ghost predicate Follows(cfg: Config, s: State) {
    if s.pc.Finished? then Correct(cfg, s.pc.outcome, s.pc.origin)
    else if PendingOf(s.pc).Some? then
      var p := PendingOf(s.pc).value;
      Correct(cfg, CallOutcome(cfg, Call(OriginIndex(cfg, p.origin), p.transport, p.options)), p.origin)
    else
      && Track(cfg, AllRules(cfg.rules), s.walk.index, s.walk.options, s.walk.anonymous, s.walk.named, Calls(s.walk.futures))
      && RacesOk(cfg, s.walk.index, s.walk.armed)
  }

  /** An exposed rule that feeds, at any remove, a rule that ends the request or
      changes its options, or is one: some request with these rules is answered
      wrongly, by a run in which nobody gives up. */
  lemma ExposedAnswersWrong(rules: seq<Rule>, d: nat, c: seq<nat>, t: string) returns (cfg: Config, end: State)
    requires Accepted(rules) && Chain(rules, c) && Exposed(rules, d, c[0], t)
    ensures cfg.rules == rules && ReadsOnlyBindings(cfg) && Reach(cfg, end)
    ensures end.pc.Finished? && !Correct(cfg, end.pc.outcome, end.pc.origin)
  {
    cfg := Scenario(rules, d, c, t);
    SetupReads(cfg, d, c, t);
    var s: State;
    if IsRace(rules[c[0]]) {
      var u, index := RaceMisses(cfg, d, c, t);
      s := State(At(index, map[t := 0], [Asked(cfg, d, t, Resolved)], []), ResumeSweep(u, 0));
      MissedIsLate(cfg, d, c, t, index, [], ResumeSweep(u, 0));
    } else {
      var armed := OrdinaryMisses(cfg, d, c, t);
      s := State(At(c[0] + 1, map[t := 0], [Asked(cfg, d, t, Resolved)], armed), WalkRule);
      MissedIsLate(cfg, d, c, t, c[0] + 1, armed, WalkRule);
    }
    end := FallsThrough(cfg, d, c, t, s);
    LateIsWrong(cfg, d, c, t, end);
  }

  lemma LateIsWrong(cfg: Config, d: nat, c: seq<nat>, t: string, end: State)
    requires Setup(cfg, d, c, t) && Chain(cfg.rules, c) && Late(cfg, d, t, c, end) && end.pc.Finished?
    ensures !Correct(cfg, end.pc.outcome, end.pc.origin)
  {
    if end.pc.origin == FromDefault {
      DefaultIsWrong(cfg, d, c, t, end.pc.outcome);
    } else {
      MissingIsWrong(cfg, d, c, t);
    }
  }

  /** An exposed evaluate rule is passed over, so its exchange is not issued. */
  lemma ExposedEvaluateSkipped(rules: seq<Rule>, d: nat, j: nat, t: string) returns (cfg: Config, s: State)
    requires Accepted(rules) && Exposed(rules, d, j, t) && rules[j].action.Evaluate?
    ensures cfg.rules == rules && ReadsOnlyBindings(cfg) && Reach(cfg, s) && !Follows(cfg, s)
  {
    cfg := Scenario(rules, d, [j], t);
    assert Linked(rules, [j]);
    SetupReads(cfg, d, [j], t);
    var armed := OrdinaryMisses(cfg, d, [j], t);
    s := State(At(j + 1, map[t := 0], [Asked(cfg, d, t, Resolved)], armed), WalkRule);
    EvaluateDeparts(cfg, d, j, t, s.walk.options, Calls(s.walk.futures));
    Departs(cfg, s);
  }

  lemma Departs(cfg: Config, s: State)
    requires s.pc.WalkRule?
    requires !Track(cfg, AllRules(cfg.rules), s.walk.index, s.walk.options, s.walk.anonymous, s.walk.named, Calls(s.walk.futures))
    ensures !Follows(cfg, s)
  {}

  lemma EvaluateDeparts(cfg: Config, d: nat, j: nat, t: string, options: QueryOptions, cs: seq<Call>)
    requires Setup(cfg, d, [j], t) && cfg.rules[j].action.Evaluate?
    ensures !Track(cfg, AllRules(cfg.rules), j + 1, options, None, map[t := 0], cs)
  {
    SyncMatches(cfg, d, [j], t, 0);
    var a, y := cfg.rules[j].action, Known(cfg, d, t);
    ServersThere(cfg, d, [j], t, j);
    var known := SyncEvaluate(cfg, j, y, a);
    assert SyncAt(cfg, j + 1) == Some(known);
    if a.tag != "" {
      assert Defines(cfg.rules[j], a.tag);
      assert a.tag != t;
      assert TagTracked(cfg.rules, AllRules(cfg.rules), a.tag);
    } else {
      assert AnonymousTracked(cfg.rules, AllRules(cfg.rules), j + 1);
    }
  }

  lemma SoundFollows(cfg: Config, s: State)
    requires Sound(cfg, AllRules(cfg.rules), s)
    ensures Follows(cfg, s)
  {}

  lemma SafeFollows(cfg: Config, s: State)
    requires Accepted(cfg.rules) && ReadsOnlyBindings(cfg) && Safe(cfg.rules, AllRules(cfg.rules)) && Reach(cfg, s)
    ensures Follows(cfg, s)
  {
    var all := AllRules(cfg.rules);
    AllIsClosed(cfg.rules);
    var states: seq<State>, labels: seq<Label> :| Run(cfg, states, labels) && states[|labels|] == s && GiveUp !in labels;
    SafeIsTimely(cfg, all, states, labels);
    RunSound(cfg, all, states, labels, |labels|);
    SoundFollows(cfg, s);
  }

  /** Exactly the lists in which no rule is exposed follow their rules in every
      state of every run. */
  lemma SafeExactly(rules: seq<Rule>)
    requires Accepted(rules)
    ensures Safe(rules, AllRules(rules)) <==>
              forall cfg: Config, s: State :: cfg.rules == rules && ReadsOnlyBindings(cfg) && Reach(cfg, s) ==> Follows(cfg, s)
  {
    if Safe(rules, AllRules(rules)) {
      forall cfg: Config, s: State | cfg.rules == rules && ReadsOnlyBindings(cfg) && Reach(cfg, s) ensures Follows(cfg, s) {
        SafeFollows(cfg, s);
      }
    } else {
      var d: nat, j: nat, t: string :| j in AllRules(rules) && Exposed(rules, d, j, t);
      if rules[j].action.Evaluate? {
        var cfg, s := ExposedEvaluateSkipped(rules, d, j, t);
      } else {
        assert Chain(rules, [j]);
        var cfg, s := ExposedAnswersWrong(rules, d, [j], t);
        assert !Follows(cfg, s);
      }
    }
  }

  lemma SafeAnswers(cfg: Config, s: State)
    requires Accepted(cfg.rules) && ReadsOnlyBindings(cfg) && Safe(cfg.rules, Mattering(cfg.rules)) && Reach(cfg, s) && s.pc.Finished?
    ensures Correct(cfg, s.pc.outcome, s.pc.origin)
  {
    MatteringIsClosed(cfg.rules);
    var states: seq<State>, labels: seq<Label> :| Run(cfg, states, labels) && states[|labels|] == s && GiveUp !in labels;
    SafeIsCorrect(cfg, Mattering(cfg.rules), states, labels, |labels|);
  }

  /** Exactly the lists in which no rule that matters for the answer is exposed
      give a correct answer to every request under every timing. */
  lemma AnswersExactly(rules: seq<Rule>)
    requires Accepted(rules)
    ensures Safe(rules, Mattering(rules)) <==>
              forall cfg: Config, s: State :: cfg.rules == rules && ReadsOnlyBindings(cfg) && Reach(cfg, s) && s.pc.Finished? ==>
                Correct(cfg, s.pc.outcome, s.pc.origin)
  {
    if Safe(rules, Mattering(rules)) {
      forall cfg: Config, s: State | cfg.rules == rules && ReadsOnlyBindings(cfg) && Reach(cfg, s) && s.pc.Finished?
        ensures Correct(cfg, s.pc.outcome, s.pc.origin)
      {
        SafeAnswers(cfg, s);
      }
    } else {
      var d: nat, j: nat, t: string :| j in Mattering(rules) && Exposed(rules, d, j, t);
      var c :| Chain(rules, c) && c[0] == j;
      var cfg, end := ExposedAnswersWrong(rules, d, c, t);
    }
  }
}
