/**
 The loops of the DNS rule walk in the code's own form: `settleDNSFutures`,
 `cancelDNSFutures`, `sweepArmedDNSRules` and `walkDNSRules` on a mutable walk
 state. Each call is a stretch of machine steps in which no exchange completes,
 and the sweep commits the lowest armed rule that is ready and has an answer.
 */
module DnsWalkLoop {
  import opened Common
  import opened DnsWalk
  import opened DnsWalkBounds

  // ----- stretches of machine steps

  function MainSteps(cfg: Config, s: State, n: nat): State
    decreases n
  {
    if n == 0 || !MainEnabled(s) then s else MainSteps(cfg, MainStep(cfg, s), n - 1)
  }

  /** The goroutine gets from `s` to `t` while nothing else moves. */
  ghost predicate Reaches(cfg: Config, s: State, t: State) {
    exists n: nat :: MainSteps(cfg, s, n) == t
  }

  lemma {:induction false} MainStepsAdd(cfg: Config, s: State, m: nat, n: nat)
    ensures MainSteps(cfg, MainSteps(cfg, s, m), n) == MainSteps(cfg, s, m + n)
    decreases m
  {
    if m > 0 && MainEnabled(s) {
      var t := MainStep(cfg, s);
      MainStepsAdd(cfg, t, m - 1, n);
      assert MainSteps(cfg, s, m) == MainSteps(cfg, t, m - 1) && MainSteps(cfg, s, m + n) == MainSteps(cfg, t, m - 1 + n);
    } else if m > 0 {
      assert MainSteps(cfg, s, m) == s && MainSteps(cfg, s, n) == s && MainSteps(cfg, s, m + n) == s;
    }
  }

  lemma ReachesTrans(cfg: Config, s: State, t: State, u: State)
    requires Reaches(cfg, s, t) && Reaches(cfg, t, u)
    ensures Reaches(cfg, s, u)
  {
    var m: nat :| MainSteps(cfg, s, m) == t;
    var n: nat :| MainSteps(cfg, t, n) == u;
    MainStepsAdd(cfg, s, m, n);
  }

  lemma ReachesOne(cfg: Config, s: State, t: State)
    requires MainEnabled(s) && MainStep(cfg, s) == t
    ensures Reaches(cfg, s, t)
  {
    assert MainSteps(cfg, t, 0) == t;
    assert MainSteps(cfg, s, 1) == t;
  }

  lemma ReachesSelf(cfg: Config, s: State)
    ensures Reaches(cfg, s, s)
  {
    assert MainSteps(cfg, s, 0) == s;
  }

  // ----- what a whole sweep does

  /** The rule a sweep commits, with its verdict, or nothing. */
  datatype SweepEnd = NoCommit | Committed(rule: nat, verdict: Verdict)

  function SweepFrom(cfg: Config, w: Walk, at: nat): (Walk, SweepEnd)
    requires at <= |w.armed|
    decreases |w.armed| - at
  {
    if at == |w.armed| then (w, NoCommit)
    else if !IsReady(w, w.armed[at]) then SweepFrom(cfg, w, at + 1)
    else
      var v := Judge(cfg, w, w.armed[at]);
      if v.Miss? then SweepFrom(cfg, Disarm(w, at), at)
      else (Disarm(w, at), Committed(w.armed[at].rule, v))
  }

  /** An armed rule that a sweep would commit. */
  predicate Commits(cfg: Config, w: Walk, a: Armed) {
    IsReady(w, a) && !Judge(cfg, w, a).Miss?
  }

  /** `rule` is the first of `armed` that commits. */
  ghost predicate FirstCommit(cfg: Config, w: Walk, armed: seq<Armed>, rule: nat, verdict: Verdict) {
    exists p :: 0 <= p < |armed| && armed[p].rule == rule && Commits(cfg, w, armed[p]) && Judge(cfg, w, armed[p]) == verdict
                && forall q :: 0 <= q < p ==> !Commits(cfg, w, armed[q])
  }

  lemma {:induction false} SweepIsFirst(cfg: Config, w: Walk, at: nat)
    requires at <= |w.armed|
    ensures var (v, end) := SweepFrom(cfg, w, at);
            && v == w.(armed := v.armed)
            && (end.NoCommit? ==>
                  && (forall p :: at <= p < |w.armed| ==> !Commits(cfg, w, w.armed[p]))
                  && (forall a :: a in v.armed ==> a in w.armed[..at] || !IsReady(w, a))
                  && (forall a :: a in w.armed && !IsReady(w, a) ==> a in v.armed))
            && (end.Committed? ==> FirstCommit(cfg, w, w.armed[at..], end.rule, end.verdict))
    decreases |w.armed| - at
  {
    if at < |w.armed| {
      var a := w.armed[at];
      if !IsReady(w, a) {
        SweepIsFirst(cfg, w, at + 1);
        SweepSkip(cfg, w, at);
      } else if Judge(cfg, w, a).Miss? {
        SweepIsFirst(cfg, Disarm(w, at), at);
        SweepDrop(cfg, w, at);
      } else {
        assert w.armed[at..][0] == a;
      }
    }
  }

  lemma SweepSkip(cfg: Config, w: Walk, at: nat)
    requires at < |w.armed| && !IsReady(w, w.armed[at])
    ensures forall j, v :: FirstCommit(cfg, w, w.armed[at + 1..], j, v) ==> FirstCommit(cfg, w, w.armed[at..], j, v)
    ensures forall x :: x in w.armed[..at + 1] ==> x in w.armed[..at] || !IsReady(w, x)
  {
    forall j, v | FirstCommit(cfg, w, w.armed[at + 1..], j, v)
      ensures FirstCommit(cfg, w, w.armed[at..], j, v)
    {
      assert w.armed[at..] == [w.armed[at]] + w.armed[at + 1..];
      FirstCommitLater(cfg, w, w.armed[at], w.armed[at + 1..], j, v);
    }
  }

  /** Dropping a parked rule changes nothing for the others. */
  lemma DisarmJudges(cfg: Config, w: Walk, at: nat)
    requires at < |w.armed|
    ensures forall x :: Judge(cfg, Disarm(w, at), x) == Judge(cfg, w, x)
    ensures forall x :: IsReady(Disarm(w, at), x) == IsReady(w, x)
  {}

  lemma FirstCommitLater(cfg: Config, w: Walk, a: Armed, rest: seq<Armed>, j: nat, v: Verdict)
    requires !Commits(cfg, w, a) && FirstCommit(cfg, w, rest, j, v)
    ensures FirstCommit(cfg, w, [a] + rest, j, v)
  {
    var all := [a] + rest;
    var p :| 0 <= p < |rest| && rest[p].rule == j && Commits(cfg, w, rest[p]) && Judge(cfg, w, rest[p]) == v
             && forall q :: 0 <= q < p ==> !Commits(cfg, w, rest[q]);
    assert all[p + 1] == rest[p];
    forall q | 0 <= q < p + 1 ensures !Commits(cfg, w, all[q]) {
      if q > 0 { assert all[q] == rest[q - 1]; }
    }
  }

  lemma FirstCommitDisarmed(cfg: Config, w: Walk, at: nat, armed: seq<Armed>, j: nat, v: Verdict)
    requires at < |w.armed| && FirstCommit(cfg, Disarm(w, at), armed, j, v)
    ensures FirstCommit(cfg, w, armed, j, v)
  {
    DisarmJudges(cfg, w, at);
    var u := Disarm(w, at);
    var p :| 0 <= p < |armed| && armed[p].rule == j && Commits(cfg, u, armed[p]) && Judge(cfg, u, armed[p]) == v
             && forall q :: 0 <= q < p ==> !Commits(cfg, u, armed[q]);
    assert forall q :: 0 <= q < p ==> !Commits(cfg, w, armed[q]);
    assert Commits(cfg, w, armed[p]);
  }

  lemma SweepDrop(cfg: Config, w: Walk, at: nat)
    requires at < |w.armed| && !Commits(cfg, w, w.armed[at])
    ensures var u := Disarm(w, at);
            && (forall j, v :: FirstCommit(cfg, u, u.armed[at..], j, v) ==> FirstCommit(cfg, w, w.armed[at..], j, v))
            && (forall x :: IsReady(u, x) == IsReady(w, x)) && (forall x :: Commits(cfg, u, x) == Commits(cfg, w, x))
            && u.armed[..at] == w.armed[..at]
            && (forall p :: at < p < |w.armed| ==> u.armed[p - 1] == w.armed[p])
  {
    var u := Disarm(w, at);
    DisarmJudges(cfg, w, at);
    forall j, v | FirstCommit(cfg, u, u.armed[at..], j, v)
      ensures FirstCommit(cfg, w, w.armed[at..], j, v)
    {
      FirstCommitDisarmed(cfg, w, at, u.armed[at..], j, v);
      assert w.armed[at..] == [w.armed[at]] + u.armed[at..];
      FirstCommitLater(cfg, w, w.armed[at], u.armed[at..], j, v);
    }
  }

  /** With no completion during the sweep, the committed rule is the lowest armed
      rule that is ready and has an answer; if none is committed, exactly the
      rules that still wait stay armed. */
  lemma SweepCommitsLowest(cfg: Config, w: Walk)
    requires ArmedShape(w.armed, w.index, |w.futures|)
    ensures var (v, end) := SweepFrom(cfg, w, 0);
            && (end.Committed? ==>
                  && (exists a :: a in w.armed && a.rule == end.rule && Commits(cfg, w, a) && Judge(cfg, w, a) == end.verdict)
                  && (forall a :: a in w.armed && Commits(cfg, w, a) ==> end.rule <= a.rule))
            && (end.NoCommit? ==>
                  && (forall a :: a in w.armed ==> !Commits(cfg, w, a))
                  && (forall a :: a in v.armed <==> a in w.armed && !IsReady(w, a)))
  {
    SweepIsFirst(cfg, w, 0);
    assert w.armed[0..] == w.armed;
    var (v, end) := SweepFrom(cfg, w, 0);
    if end.NoCommit? {
      SweepKeepsArmed(cfg, w, 0);
    }
  }

  lemma {:induction false} SweepKeepsArmed(cfg: Config, w: Walk, at: nat)
    requires at <= |w.armed|
    ensures forall a :: a in SweepFrom(cfg, w, at).0.armed ==> a in w.armed
    decreases |w.armed| - at
  {
    if at < |w.armed| {
      if !IsReady(w, w.armed[at]) {
        SweepKeepsArmed(cfg, w, at + 1);
      } else if Judge(cfg, w, w.armed[at]).Miss? {
        SweepKeepsArmed(cfg, Disarm(w, at), at);
      }
    }
  }

  // ----- a whole sweep is a stretch of machine steps

  function AfterWalkSweep(w: Walk, end: SweepEnd): State {
    match end
    case NoCommit => State(w, WalkRule)
    case Committed(j, Settled(o)) => Finish(w, o, FromRace(j))
    case Committed(j, Commit(p)) => Suspend(w.(armed := []), Ready(p))
    case Committed(j, Miss) => State(w, WalkRule)
  }

  lemma {:induction false} WalkSweepReaches(cfg: Config, w: Walk, at: nat)
    requires at <= |w.armed|
    ensures var (v, end) := SweepFrom(cfg, w, at);
            Reaches(cfg, State(w, WalkSweep(at)), AfterWalkSweep(v, end))
    decreases |w.armed| - at
  {
    var s := State(w, WalkSweep(at));
    var (v, end) := SweepFrom(cfg, w, at);
    ReachesOne(cfg, s, WalkSweepStep(cfg, w, at));
    if at < |w.armed| {
      if !IsReady(w, w.armed[at]) {
        WalkSweepReaches(cfg, w, at + 1);
        ReachesTrans(cfg, s, State(w, WalkSweep(at + 1)), AfterWalkSweep(v, end));
      } else if Judge(cfg, w, w.armed[at]).Miss? {
        WalkSweepReaches(cfg, Disarm(w, at), at);
        ReachesTrans(cfg, s, State(Disarm(w, at), WalkSweep(at)), AfterWalkSweep(v, end));
      }
    }
  }

  function AfterResumeSweep(cfg: Config, w: Walk, u: Suspension, end: SweepEnd): State {
    match end
    case NoCommit => State(w, ResumeCheck(u))
    case Committed(j, Settled(o)) => Finish(w, o, FromRace(j))
    case Committed(j, Commit(p)) => FinishPending(cfg, w, p)
    case Committed(j, Miss) => State(w, ResumeCheck(u))
  }

  lemma {:induction false} ResumeSweepReaches(cfg: Config, w: Walk, u: Suspension, at: nat)
    requires at <= |w.armed|
    ensures var (v, end) := SweepFrom(cfg, w, at);
            Reaches(cfg, State(w, ResumeSweep(u, at)), AfterResumeSweep(cfg, v, u, end))
    decreases |w.armed| - at
  {
    var s := State(w, ResumeSweep(u, at));
    var (v, end) := SweepFrom(cfg, w, at);
    ReachesOne(cfg, s, ResumeSweepStep(cfg, w, u, at));
    if at < |w.armed| {
      if !IsReady(w, w.armed[at]) {
        ResumeSweepReaches(cfg, w, u, at + 1);
        ReachesTrans(cfg, s, State(w, ResumeSweep(u, at + 1)), AfterResumeSweep(cfg, v, u, end));
      } else if Judge(cfg, w, w.armed[at]).Miss? {
        ResumeSweepReaches(cfg, Disarm(w, at), u, at);
        ReachesTrans(cfg, s, State(Disarm(w, at), ResumeSweep(u, at)), AfterResumeSweep(cfg, v, u, end));
      }
    }
  }

  // ----- the loops

  class RuleWalk {
    var index: nat
    var options: QueryOptions
    var anonymous: Option<nat>
    var named: map<string, nat>
    var responses: map<string, Option<Msg>>
    var transports: map<string, string>
    var futures: seq<Future>
    var armed: seq<Armed>
    var terminal: Option<nat>
    var terminalIndex: nat
    var wake: bool

    function Abs(): Walk
      reads this
    {
      Walk(index, options, anonymous, named, responses, transports, futures, armed, terminal, terminalIndex, wake)
    }

    constructor (cfg: Config)
      ensures State(Abs(), WalkRule) == Init(cfg)
    {
      index, options, anonymous, named := 0, cfg.initial, None, map[];
      responses, transports, futures, armed := map[], map[], [], [];
      terminal, terminalIndex, wake := None, 0, false;
    }

    /** `settleDNSFutures`. */
    method SettleFutures()
      modifies this
      ensures Abs() == Settle(old(Abs()))
    {
      var k := 0;
      while k < |futures|
        invariant k <= |futures| == |old(futures)|
        invariant SettleFrom(Abs(), k) == Settle(old(Abs()))
      {
        var f := futures[k];
        if !f.settled && f.Done() {
          futures := futures[k := f.(settled := true)];
          if f.tag != "" {
            responses := responses[f.tag := f.View()];
            transports := transports[f.tag := f.transport];
          }
        }
        k := k + 1;
      }
    }

    /** `cancelDNSFutures`. */
    method CancelFutures()
      modifies this`futures
      ensures futures == CancelAll(old(futures), None)
    {
      var k := 0;
      while k < |futures|
        invariant k <= |futures| == |old(futures)|
        invariant forall j :: 0 <= j < k ==> futures[j] == Cancel(old(futures)[j])
        invariant forall j :: k <= j < |futures| ==> futures[j] == old(futures)[j]
      {
        futures := futures[k := Cancel(futures[k])];
        k := k + 1;
      }
    }

    /** `sweepArmedDNSRules`. */
    method SweepArmed(cfg: Config) returns (end: SweepEnd)
      requires ArmedShape(armed, index, |futures|)
      modifies this`armed
      ensures (Abs(), end) == SweepFrom(cfg, old(Abs()), 0)
      ensures end.Committed? ==> exists a :: a in old(armed) && a.rule == end.rule && Commits(cfg, old(Abs()), a)
      ensures end.Committed? ==> forall a :: a in old(armed) && Commits(cfg, old(Abs()), a) ==> end.rule <= a.rule
      ensures end.NoCommit? ==> forall a :: a in armed <==> a in old(armed) && !IsReady(old(Abs()), a)
    {
      SweepCommitsLowest(cfg, Abs());
      end := SweepLoop(cfg);
    }

    method SweepLoop(cfg: Config) returns (end: SweepEnd)
      modifies this`armed
      ensures (Abs(), end) == SweepFrom(cfg, old(Abs()), 0)
    {
      var at := 0;
      end := NoCommit;
      while at < |armed|
        invariant at <= |armed| && end.NoCommit?
        invariant SweepFrom(cfg, Abs(), at) == SweepFrom(cfg, old(Abs()), 0)
        decreases |armed| - at
      {
        var a := armed[at];
        if !IsReady(Abs(), a) {
          at := at + 1;
        } else {
          var v := Judge(cfg, Abs(), a);
          armed := armed[..at] + armed[at + 1..];
          if !v.Miss? {
            end := Committed(a.rule, v);
            return;
          }
        }
      }
    }

    static lemma PendingNext(w: Walk, tags: seq<string>, k: nat, fs: seq<nat>)
      requires k < |tags|
      ensures fs + AllPending(w, tags[k..])
           == (if tags[k] in w.named && !IsDone(w, w.named[tags[k]]) then fs + [w.named[tags[k]]] else fs) + AllPending(w, tags[k + 1..])
    {
      assert tags[k..][1..] == tags[k + 1..];
    }

    /** The futures a race rule waits for. */
    method PendingFutures(r: Rule) returns (fs: seq<nat>)
      ensures fs == PendingFor(Abs(), r)
    {
      fs := [];
      var k := 0;
      while k < |r.tags|
        invariant k <= |r.tags|
        invariant fs + AllPending(Abs(), r.tags[k..]) == AllPending(Abs(), r.tags)
      {
        PendingNext(Abs(), r.tags, k, fs);
        if r.tags[k] in named && !IsDone(Abs(), named[r.tags[k]]) {
          fs := fs + [named[r.tags[k]]];
        }
        k := k + 1;
      }
      if r.anonymous && anonymous.Some? && !IsDone(Abs(), anonymous.value) {
        fs := fs + [anonymous.value];
      }
    }

    /** The future an ordinary rule has to wait for first. */
    method AwaitedFuture(r: Rule) returns (f: Option<nat>)
      ensures f == AwaitFor(Abs(), r)
    {
      f := None;
      var k := 0;
      while k < |r.tags|
        invariant k <= |r.tags|
        invariant FirstPending(Abs(), r.tags[k..]) == FirstPending(Abs(), r.tags)
      {
        assert r.tags[k..][1..] == r.tags[k + 1..];
        if r.tags[k] in named && !IsDone(Abs(), named[r.tags[k]]) {
          f := Some(named[r.tags[k]]);
          return;
        }
        k := k + 1;
      }
      if r.anonymous && anonymous.Some? && !IsDone(Abs(), anonymous.value) {
        f := anonymous;
      }
    }

    /** `launchDNSEvaluate`. */
    method LaunchQuery(tag: string, transport: string, o: QueryOptions) returns (f: nat)
      modifies this`futures
      ensures Abs() == Launch(old(Abs()), tag, transport, o) && f == |old(futures)|
    {
      f := |futures|;
      futures := futures + [NewFuture(Abs(), tag, transport, o)];
    }

    method Stop(outcome: Outcome, origin: Origin) returns (pc: Control)
      modifies this`futures
      ensures State(Abs(), pc) == Finish(old(Abs()), outcome, origin)
    {
      CancelFutures();
      pc := Finished(outcome, origin);
    }

    /** The evaluate branch of the action switch. */
    method OnEvaluate(cfg: Config, a: Action) returns (pc: Control)
      requires a.Evaluate?
      modifies this
      ensures State(Abs(), pc) == ActEvaluate(cfg, old(Abs()), a)
    {
      pc := WalkRule;
      if a.server !in cfg.servers {
        if a.tag == "" { anonymous := None; }
        index := index + 1;
      } else if !a.speculative && armed != [] {
        pc := ResumeSettle(Drain);
      } else {
        var f := LaunchQuery(a.tag, a.server, Apply(options, a.options));
        if a.tag == "" { anonymous := Some(f); } else { named := named[a.tag := f]; }
        index := index + 1;
      }
    }

    /** The route branch of the action switch. */
    method OnRoute(cfg: Config, a: Action) returns (pc: Control)
      requires a.Route?
      modifies this
      ensures State(Abs(), pc) == ActRoute(cfg, old(Abs()), a)
    {
      var resolved := ResolveRoute(cfg, a.server, a.options, options);
      if resolved.None? {
        index := index + 1;
        pc := WalkRule;
      } else if armed != [] {
        if a.speculative && terminal.None? {
          var f := LaunchQuery("", a.server, resolved.value);
          terminal := Some(f);
          terminalIndex := index;
        }
        pc := ResumeSettle(Drain);
      } else if terminal.Some? && terminalIndex == index && terminal.value < |futures| {
        var f := futures[terminal.value];
        pc := ResumeSettle(Ready(Pending(FromRule(index), f.transport, f.options, terminal)));
      } else {
        pc := ResumeSettle(Ready(Pending(FromRule(index), a.server, resolved.value, None)));
      }
    }

    /** The respond branch of the action switch. */
    method OnRespond(r: Rule) returns (pc: Control)
      modifies this
      ensures State(Abs(), pc) == ActRespond(old(Abs()), r)
    {
      if armed != [] {
        pc := ResumeSettle(Drain);
      } else if r.respondTag != "" {
        pc := Stop(TaggedAnswer(Abs(), r.respondTag), FromRule(index));
      } else if !HasBindings(r) && anonymous.Some? && !IsDone(Abs(), anonymous.value) {
        pc := ResumeSettle(Await(anonymous.value));
      } else {
        pc := Stop(FutureAnswer(Abs(), anonymous), FromRule(index));
      }
    }

    /** The action switch of `walkDNSRules`. */
    method OnMatch(cfg: Config, r: Rule) returns (pc: Control)
      modifies this
      ensures State(Abs(), pc) == Act(cfg, old(Abs()), r)
    {
      match r.action
      case SetOptions(o) =>
        options := Apply(options, o);
        index := index + 1;
        pc := WalkRule;
      case Evaluate(_, _, _, _) => pc := OnEvaluate(cfg, r.action);
      case Respond => pc := OnRespond(r);
      case Route(_, _, _) => pc := OnRoute(cfg, r.action);
      case Reject(m) =>
        if armed != [] {
          pc := ResumeSettle(Drain);
        } else if m.RejectReply? {
          index := index + 1;
          pc := WalkRule;
        } else {
          pc := Stop(if m.RejectDefault? then Refused else Dropped, FromRule(index));
        }
      case Predefined(answer) =>
        if armed != [] {
          pc := ResumeSettle(Drain);
        } else {
          pc := Stop(Canned(answer), FromRule(index));
        }
    }

    /** The race branch: park the rule, and sweep at once if it waits for nothing. */
    method OnRace(cfg: Config, r: Rule) returns (pc: Control)
      requires Base(cfg, Abs()) && index < |cfg.rules| && cfg.rules[index] == r && HasBindings(r) && r.race
      modifies this
      ensures Reaches(cfg, State(old(Abs()), WalkTest), State(Abs(), pc))
      ensures pc == WalkRule ==> Base(cfg, Abs()) && index == old(index) + 1
      ensures pc == WalkRule || pc.ResumeSettle? || pc.Finished?
    {
      ghost var s := State(Abs(), WalkTest);
      var fs := PendingFutures(r);
      ArmGood(cfg, Abs(), r);
      armed := armed + [Armed(index, fs, if r.anonymous then anonymous else None, r.anonymous, options)];
      index := index + 1;
      pc := WalkRule;
      ghost var t := ArmRule(s.walk, r);
      assert Abs() == t.walk;
      ReachesOne(cfg, s, t);
      if fs == [] {
        pc := SweepNow(cfg);
        ReachesTrans(cfg, s, t, State(Abs(), pc));
      }
    }

    /** The sweep the walk begins, and what it does with a committed rule. */
    method SweepNow(cfg: Config) returns (pc: Control)
      requires Base(cfg, Abs())
      modifies this
      ensures Reaches(cfg, State(old(Abs()), WalkSweep(0)), State(Abs(), pc))
      ensures pc == WalkRule ==> Base(cfg, Abs()) && index == old(index)
      ensures pc == WalkRule || pc.ResumeSettle? || pc.Finished?
    {
      WalkSweepReaches(cfg, Abs(), 0);
      SweepBase(cfg, Abs(), 0);
      var end := SweepArmed(cfg);
      pc := WalkRule;
      if end.Committed? && end.verdict.Settled? {
        pc := Stop(end.verdict.outcome, FromRace(end.rule));
      } else if end.Committed? && end.verdict.Commit? {
        armed := [];
        pc := ResumeSettle(Ready(end.verdict.pending));
      }
    }

    /** `walkDNSRules`: a stretch of machine steps that ends with an answer or a
        suspension. */
    method WalkRules(cfg: Config) returns (pc: Control)
      requires Base(cfg, Abs())
      modifies this
      ensures Reaches(cfg, State(old(Abs()), WalkRule), State(Abs(), pc))
      ensures pc.ResumeSettle? || pc.Finished?
    {
      ghost var s := State(Abs(), WalkRule);
      ReachesSelf(cfg, s);
      while index < |cfg.rules|
        invariant Base(cfg, Abs()) && Reaches(cfg, s, State(Abs(), WalkRule))
        decreases |cfg.rules| - index
      {
        var r := cfg.rules[index];
        ghost var t := State(Abs(), WalkRule);
        pc := OneRule(cfg, r);
        ReachesTrans(cfg, s, t, State(Abs(), pc));
        if pc != WalkRule { return; }
      }
      ReachesOne(cfg, State(Abs(), WalkRule), EndOfRules(cfg, Abs()));
      ReachesTrans(cfg, s, State(Abs(), WalkRule), EndOfRules(cfg, Abs()));
      if armed != [] {
        pc := ResumeSettle(Drain);
      } else {
        pc := ResumeSettle(Ready(Pending(FromDefault, cfg.fallback, options, None)));
      }
    }

    /** Matching a rule and acting on it. */
    method MatchRule(cfg: Config, r: Rule) returns (pc: Control)
      modifies this
      ensures State(Abs(), pc) == MatchAndAct(cfg, old(Abs()), r)
    {
      if cfg.matches(index, CurrentView(Abs())) {
        pc := OnMatch(cfg, r);
      } else {
        index := index + 1;
        pc := WalkRule;
      }
    }

    /** A rule that reads a response, once the futures are settled. */
    method TestRule(cfg: Config, r: Rule) returns (pc: Control)
      requires Base(cfg, Abs()) && index < |cfg.rules| && cfg.rules[index] == r && HasBindings(r)
      modifies this
      ensures Reaches(cfg, State(old(Abs()), WalkTest), State(Abs(), pc))
      ensures pc == WalkRule ==> Base(cfg, Abs()) && index == old(index) + 1
      ensures pc == WalkRule || pc.ResumeSettle? || pc.Finished?
    {
      if r.race {
        pc := OnRace(cfg, r);
        return;
      }
      ghost var w := Abs();
      var wait := AwaitedFuture(r);
      if wait.Some? {
        pc := ResumeSettle(Await(wait.value));
      } else {
        MatchAndActGood(cfg, w, r);
        MatchMoves(cfg, w, r);
        pc := MatchRule(cfg, r);
      }
      ReachesOne(cfg, State(w, WalkTest), State(Abs(), pc));
    }

    /** The body of the loop of `walkDNSRules`. */
    method OneRule(cfg: Config, r: Rule) returns (pc: Control)
      requires Base(cfg, Abs()) && index < |cfg.rules| && cfg.rules[index] == r
      modifies this
      ensures Reaches(cfg, State(old(Abs()), WalkRule), State(Abs(), pc))
      ensures pc == WalkRule ==> Base(cfg, Abs()) && index == old(index) + 1
      ensures pc == WalkRule || pc.ResumeSettle? || pc.Finished?
    {
      ghost var s := State(Abs(), WalkRule);
      if HasBindings(r) {
        SettleBase(cfg, Abs());
        SettleFromFrame(Abs(), 0);
        SettleFutures();
        ghost var t := State(Abs(), WalkTest);
        ReachesOne(cfg, s, t);
        pc := TestRule(cfg, r);
        ReachesTrans(cfg, s, t, State(Abs(), pc));
      } else {
        MatchAndActGood(cfg, s.walk, r);
        MatchMoves(cfg, s.walk, r);
        pc := MatchRule(cfg, r);
        ReachesOne(cfg, s, State(Abs(), pc));
      }
    }
  }

  lemma {:induction false} SweepBase(cfg: Config, w: Walk, at: nat)
    requires Base(cfg, w) && at <= |w.armed|
    ensures Base(cfg, SweepFrom(cfg, w, at).0) && SweepFrom(cfg, w, at).0.index == w.index
    decreases |w.armed| - at
  {
    if at < |w.armed| {
      DisarmBase(cfg, w, at);
      if !IsReady(w, w.armed[at]) {
        SweepBase(cfg, w, at + 1);
      } else if Judge(cfg, w, w.armed[at]).Miss? {
        SweepBase(cfg, Disarm(w, at), at);
      }
    }
  }

  ghost predicate Moves(w: Walk, t: State) {
    t.pc.ResumeSettle? || t.pc.Finished? || (t.pc == WalkRule && t.walk.index == w.index + 1)
  }

  lemma EvaluateMoves(cfg: Config, w: Walk, a: Action)
    requires a.Evaluate?
    ensures Moves(w, ActEvaluate(cfg, w, a))
  {}

  lemma RouteMoves(cfg: Config, w: Walk, a: Action)
    requires a.Route?
    ensures Moves(w, ActRoute(cfg, w, a))
  {}

  lemma RespondMoves(w: Walk, r: Rule)
    ensures Moves(w, ActRespond(w, r))
  {}

  lemma MatchMoves(cfg: Config, w: Walk, r: Rule)
    ensures Moves(w, MatchAndAct(cfg, w, r))
  {
    match r.action
    case Evaluate(_, _, _, _) => EvaluateMoves(cfg, w, r.action);
    case Route(_, _, _) => RouteMoves(cfg, w, r.action);
    case Respond => RespondMoves(w, r);
    case _ =>
  }
}
