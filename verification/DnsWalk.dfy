/**
 The DNS rule walk of dns/router.go as a state machine.

 The walking goroutine is deterministic: `MainStep` is one of its steps. The
 environment resolves launched exchanges, posts the wake-up token, or cancels
 the request, in any order and at any point. `settleDNSFutures` and the
 readiness tests that follow it are separate steps, as they are in the code, so
 a completion may land between them.
 */
module DnsWalk {
  import opened Common

  // ----- messages, options and rules

  /** The content of a DNS message, which the walk hands around and never reads. */
  datatype Msg = Msg(rcode: int, payload: string)

  /** What an exchange delivers to its callback. */
  datatype Reply = Reply(response: Option<Msg>, err: Option<string>)

  datatype QueryOptions = QueryOptions(
    disableCache: bool,
    disableOptimisticCache: bool,
    rewriteTTL: Option<nat>,
    timeout: nat,
    clientSubnet: Option<string>,
    removeClientSubnet: bool)

  /** The part of a rule action that refines query options; the same fields. */
  type RouteOptions = QueryOptions

  /** `applyDNSRouteOptions`. */
  function Apply(o: QueryOptions, r: RouteOptions): QueryOptions {
    var o1 := if r.disableCache then o.(disableCache := true) else o;
    var o2 := if r.disableOptimisticCache then o1.(disableOptimisticCache := true) else o1;
    var o3 := if r.rewriteTTL.Some? then o2.(rewriteTTL := r.rewriteTTL) else o2;
    var o4 := if r.timeout > 0 then o3.(timeout := r.timeout) else o3;
    var o5 := if r.clientSubnet.Some? then o4.(clientSubnet := r.clientSubnet, removeClientSubnet := false) else o4;
    if r.removeClientSubnet then o5.(clientSubnet := None, removeClientSubnet := true) else o5
  }

  datatype RejectMethod = RejectDefault | RejectDrop | RejectReply

  datatype Action =
    | SetOptions(options: RouteOptions)
    | Evaluate(server: string, tag: string, speculative: bool, options: RouteOptions)
    | Respond
    | Route(server: string, speculative: bool, options: RouteOptions)
    | Reject(rejectMethod: RejectMethod)
    | Predefined(answer: Msg)

  /** `tags`, `respondTag` and `anonymous` are MatchResponseTags, MatchResponseTag
      and MatchResponseAnonymous: the evaluated responses the rule reads. */
  datatype Rule = Rule(tags: seq<string>, respondTag: string, anonymous: bool, race: bool, action: Action)

  predicate HasBindings(r: Rule) {
    r.tags != [] || r.anonymous
  }

  /** The walk looks at `race` only on a rule that reads a response. */
  predicate IsRace(r: Rule) {
    HasBindings(r) && r.race
  }

  /** The responses a rule is matched against. */
  datatype View = View(anonymous: Option<Msg>, named: map<string, Option<Msg>>)

  function Get(m: map<string, Option<Msg>>, tag: string): Option<Msg> {
    if tag in m then m[tag] else None
  }

  /**
   One request. `matches` is the rule matcher, which is not part of this model;
   `servers` tells for each configured transport whether it is a fakeip one;
   `reply` is what the exchange issued by a rule would deliver.
   */
  datatype Config = Config(
    rules: seq<Rule>,
    matches: (nat, View) -> bool,
    servers: map<string, bool>,
    fallback: string,
    allowFakeIP: bool,
    initial: QueryOptions,
    reply: (nat, string, QueryOptions) -> Reply)

  /** `view()` of a resolved exchange. */
  function Visible(r: Reply): Option<Msg> {
    if r.err.Some? then None else r.response
  }

  /** `resolveDNSRoute`: nothing for a missing or skipped transport. */
  function ResolveRoute(cfg: Config, server: string, r: RouteOptions, o: QueryOptions): Option<QueryOptions> {
    if server !in cfg.servers then None
    else if cfg.servers[server] && !cfg.allowFakeIP then None
    else
      var applied := Apply(o, r);
      Some(if cfg.servers[server] then applied.(disableCache := true) else applied)
  }

  // ----- the state of one walk

  datatype Phase = Running | Resolved | Notified

  /** `dnsEvaluatedFuture`; `rule` is the index of the rule that launched it.
      `reply` means something once the phase is not `Running`. */
  datatype Future = Future(
    rule: nat, tag: string, transport: string, options: QueryOptions,
    phase: Phase, reply: Reply, settled: bool, cancelled: bool)
  {
    predicate Done() { phase != Running }

    function View(): Option<Msg> {
      if Done() then Visible(reply) else None
    }
  }

  /** `dnsArmedRule`. */
  datatype Armed = Armed(
    rule: nat, futures: seq<nat>, anonymous: Option<nat>, bindsAnonymous: bool, options: QueryOptions)

  datatype Origin = FromRule(index: nat) | FromDefault | FromRace(index: nat) | GaveUp

  /** The rule index under which the reply of a final query is looked up. */
  function OriginIndex(cfg: Config, o: Origin): nat {
    match o
    case FromRule(i) => i
    case FromRace(i) => i
    case _ => |cfg.rules|
  }

  /** `dnsPendingExchange`. */
  datatype Pending = Pending(origin: Origin, transport: string, options: QueryOptions, future: Option<nat>)

  datatype Suspension = Await(future: nat) | Drain | Ready(pending: Pending)

  datatype Outcome =
    | Answer(msg: Msg, transport: Option<string>)
    | MissingResponse
    | Refused
    | Dropped
    | Canned(msg: Msg)
    | Query(via: string, options: QueryOptions, reply: Reply)
    | Cancelled

  datatype Control =
    | WalkRule
    | WalkTest
    | WalkSweep(at: nat)
    | ResumeSettle(suspension: Suspension)
    | ResumeSweep(suspension: Suspension, at: nat)
    | ResumeCheck(suspension: Suspension)
    | Blocked(suspension: Suspension)
    | WaitReply(pending: Pending)
    | Finished(outcome: Outcome, origin: Origin)

  /** `dnsRuleWalkState`. */
  datatype Walk = Walk(
    index: nat,
    options: QueryOptions,
    anonymous: Option<nat>,
    named: map<string, nat>,
    responses: map<string, Option<Msg>>,
    transports: map<string, string>,
    futures: seq<Future>,
    armed: seq<Armed>,
    terminal: Option<nat>,
    terminalIndex: nat,
    wake: bool)

  /** The walk state with the program counter of the walking goroutine. */
  datatype State = State(walk: Walk, pc: Control)

  const NO_REPLY := Reply(None, None)

  function Init(cfg: Config): State {
    State(Walk(0, cfg.initial, None, map[], map[], map[], [], [], None, 0, false), WalkRule)
  }

  /** `resolved()`. An index that was never launched has nothing to wait for. */
  predicate IsDone(w: Walk, f: nat) {
    f < |w.futures| ==> w.futures[f].Done()
  }

  function FutureView(w: Walk, f: nat): Option<Msg> {
    if f < |w.futures| then w.futures[f].View() else None
  }

  function FutureTransport(w: Walk, f: nat): Option<string> {
    if f < |w.futures| then Some(w.futures[f].transport) else None
  }

  /** `anonymousResponse()`. */
  function AnonymousView(w: Walk): Option<Msg> {
    if w.anonymous.Some? then FutureView(w, w.anonymous.value) else None
  }

  // ----- settling, cancelling, launching

  /** One round of the loop of `settleDNSFutures`. */
  function SettleOne(w: Walk, k: nat): Walk
    requires k < |w.futures|
  {
    var f := w.futures[k];
    if f.settled || !f.Done() then w
    else
      var w1 := w.(futures := w.futures[k := f.(settled := true)]);
      if f.tag == "" then w1
      else w1.(responses := w1.responses[f.tag := f.View()], transports := w1.transports[f.tag := f.transport])
  }

  function SettleFrom(w: Walk, k: nat): Walk
    requires k <= |w.futures|
    decreases |w.futures| - k
  {
    if k == |w.futures| then w else SettleFrom(SettleOne(w, k), k + 1)
  }

  function Settle(w: Walk): Walk {
    SettleFrom(w, 0)
  }

  function Cancel(f: Future): Future {
    f.(cancelled := true)
  }

  /** `cancelDNSFutures`, sparing the one that `finishPendingExchange` waits for. */
  function CancelAll(fs: seq<Future>, spare: Option<nat>): (r: seq<Future>)
    ensures |r| == |fs|
    ensures forall k :: 0 <= k < |fs| ==> r[k] == if spare == Some(k) then fs[k] else Cancel(fs[k])
  {
    seq(|fs|, k requires 0 <= k < |fs| => if spare == Some(k) then fs[k] else Cancel(fs[k]))
  }

  function Finish(w: Walk, outcome: Outcome, origin: Origin): State {
    State(w.(futures := CancelAll(w.futures, None)), Finished(outcome, origin))
  }

  function Suspend(w: Walk, suspension: Suspension): State {
    State(w, ResumeSettle(suspension))
  }

  function Advance(w: Walk): State {
    State(w.(index := w.index + 1), WalkRule)
  }

  function NewFuture(w: Walk, tag: string, transport: string, options: QueryOptions): Future {
    Future(w.index, tag, transport, options, Running, NO_REPLY, false, false)
  }

  /** `launchDNSEvaluate`: the new future is the last one. */
  function Launch(w: Walk, tag: string, transport: string, options: QueryOptions): Walk {
    w.(futures := w.futures + [NewFuture(w, tag, transport, options)])
  }

  // ----- one rule of the ordinary walk

  /** The first bound future that is not resolved, tags before the anonymous one. */
  function FirstPending(w: Walk, tags: seq<string>): Option<nat> {
    if tags == [] then None
    else if tags[0] in w.named && !IsDone(w, w.named[tags[0]]) then Some(w.named[tags[0]])
    else FirstPending(w, tags[1..])
  }

  function AwaitFor(w: Walk, r: Rule): Option<nat> {
    var tagged := FirstPending(w, r.tags);
    if tagged.Some? then tagged
    else if r.anonymous && w.anonymous.Some? && !IsDone(w, w.anonymous.value) then w.anonymous
    else None
  }

  /** All bound futures that are not resolved, in binding order. */
  function AllPending(w: Walk, tags: seq<string>): seq<nat> {
    if tags == [] then []
    else
      (if tags[0] in w.named && !IsDone(w, w.named[tags[0]]) then [w.named[tags[0]]] else [])
      + AllPending(w, tags[1..])
  }

  function PendingFor(w: Walk, r: Rule): seq<nat> {
    AllPending(w, r.tags) +
    if r.anonymous && w.anonymous.Some? && !IsDone(w, w.anonymous.value) then [w.anonymous.value] else []
  }

  function ArmedFor(w: Walk, r: Rule): Armed {
    Armed(w.index, PendingFor(w, r), if r.anonymous then w.anonymous else None, r.anonymous, w.options)
  }

  /** The race branch: park the rule, and sweep at once if it is already ready. */
  function ArmRule(w: Walk, r: Rule): State {
    var a := ArmedFor(w, r);
    State(w.(armed := w.armed + [a], index := w.index + 1), if a.futures == [] then WalkSweep(0) else WalkRule)
  }

  function CurrentView(w: Walk): View {
    View(AnonymousView(w), w.responses)
  }

  /** The state after an evaluate rule has launched its exchange. */
  function BindFuture(w: Walk, a: Action): Walk
    requires a.Evaluate?
  {
    var w1 := Launch(w, a.tag, a.server, Apply(w.options, a.options));
    if a.tag == "" then w1.(anonymous := Some(|w.futures|))
    else w1.(named := w.named[a.tag := |w.futures|])
  }

  function ActEvaluate(cfg: Config, w: Walk, a: Action): State
    requires a.Evaluate?
  {
    if a.server !in cfg.servers then
      if a.tag == "" then Advance(w.(anonymous := None)) else Advance(w)
    else if !a.speculative && w.armed != [] then
      Suspend(w, Drain)
    else
      Advance(BindFuture(w, a))
  }

  function TaggedAnswer(w: Walk, tag: string): Outcome {
    var response := Get(w.responses, tag);
    if response.None? then MissingResponse
    else Answer(response.value, if tag in w.transports then Some(w.transports[tag]) else None)
  }

  function FutureAnswer(w: Walk, f: Option<nat>): Outcome {
    if f.None? || FutureView(w, f.value).None? then MissingResponse
    else Answer(FutureView(w, f.value).value, FutureTransport(w, f.value))
  }

  function ActRespond(w: Walk, r: Rule): State {
    if w.armed != [] then Suspend(w, Drain)
    else if r.respondTag != "" then Finish(w, TaggedAnswer(w, r.respondTag), FromRule(w.index))
    else if !HasBindings(r) && w.anonymous.Some? && !IsDone(w, w.anonymous.value) then
      Suspend(w, Await(w.anonymous.value))
    else Finish(w, FutureAnswer(w, w.anonymous), FromRule(w.index))
  }

  /** A speculative route launches its query while armed rules are undecided. */
  function Speculate(w: Walk, server: string, options: QueryOptions): Walk {
    Launch(w, "", server, options).(terminal := Some(|w.futures|), terminalIndex := w.index)
  }

  function ActRoute(cfg: Config, w: Walk, a: Action): State
    requires a.Route?
  {
    var resolved := ResolveRoute(cfg, a.server, a.options, w.options);
    if resolved.None? then Advance(w)
    else if w.armed != [] then
      if a.speculative && w.terminal.None? then Suspend(Speculate(w, a.server, resolved.value), Drain)
      else Suspend(w, Drain)
    else if w.terminal.Some? && w.terminalIndex == w.index && w.terminal.value < |w.futures| then
      var f := w.futures[w.terminal.value];
      Suspend(w, Ready(Pending(FromRule(w.index), f.transport, f.options, w.terminal)))
    else
      Suspend(w, Ready(Pending(FromRule(w.index), a.server, resolved.value, None)))
  }

  function ActReject(w: Walk, m: RejectMethod): State {
    if w.armed != [] then Suspend(w, Drain)
    else
      match m
      case RejectDefault => Finish(w, Refused, FromRule(w.index))
      case RejectDrop => Finish(w, Dropped, FromRule(w.index))
      case RejectReply => Advance(w)
  }

  function Act(cfg: Config, w: Walk, r: Rule): State {
    match r.action
    case SetOptions(o) => Advance(w.(options := Apply(w.options, o)))
    case Evaluate(_, _, _, _) => ActEvaluate(cfg, w, r.action)
    case Respond => ActRespond(w, r)
    case Route(_, _, _) => ActRoute(cfg, w, r.action)
    case Reject(m) => ActReject(w, m)
    case Predefined(answer) =>
      if w.armed != [] then Suspend(w, Drain) else Finish(w, Canned(answer), FromRule(w.index))
  }

  function MatchAndAct(cfg: Config, w: Walk, r: Rule): State {
    if cfg.matches(w.index, CurrentView(w)) then Act(cfg, w, r) else Advance(w)
  }

  /** The end of the rule list. */
  function EndOfRules(cfg: Config, w: Walk): State {
    if w.armed != [] then Suspend(w, Drain)
    else Suspend(w, Ready(Pending(FromDefault, cfg.fallback, w.options, None)))
  }

  /** The top of the walk loop: settle first if the rule reads a response. */
  function WalkRuleStep(cfg: Config, w: Walk): State {
    if w.index >= |cfg.rules| then EndOfRules(cfg, w)
    else if HasBindings(cfg.rules[w.index]) then State(Settle(w), WalkTest)
    else MatchAndAct(cfg, w, cfg.rules[w.index])
  }

  /** The readiness tests of a rule that reads a response. */
  function WalkTestStep(cfg: Config, w: Walk): State {
    if w.index >= |cfg.rules| then EndOfRules(cfg, w)
    else
      var r := cfg.rules[w.index];
      if r.race then ArmRule(w, r)
      else
        match AwaitFor(w, r)
        case Some(f) => Suspend(w, Await(f))
        case None => MatchAndAct(cfg, w, r)
  }

  // ----- sweeping the armed rules

  predicate IsReady(w: Walk, a: Armed) {
    forall f :: f in a.futures ==> IsDone(w, f)
  }

  function ArmedView(w: Walk, a: Armed): View {
    View(if !a.bindsAnonymous then AnonymousView(w)
         else if a.anonymous.Some? then FutureView(w, a.anonymous.value) else None,
         w.responses)
  }

  /** What a ready armed rule does: nothing, a finished outcome, or a query. */
  datatype Verdict = Miss | Settled(outcome: Outcome) | Commit(pending: Pending)

  function Judge(cfg: Config, w: Walk, a: Armed): Verdict {
    if a.rule >= |cfg.rules| || !cfg.matches(a.rule, ArmedView(w, a)) then Miss
    else
      var r := cfg.rules[a.rule];
      match r.action
      case Respond =>
        if r.respondTag != "" then Settled(TaggedAnswer(w, r.respondTag))
        else Settled(FutureAnswer(w, if a.anonymous.Some? then a.anonymous else w.anonymous))
      case Route(server, _, o) =>
        (match ResolveRoute(cfg, server, o, a.options)
         case None => Miss
         case Some(options) => Commit(Pending(FromRace(a.rule), server, options, None)))
      case Reject(m) =>
        (match m
         case RejectDefault => Settled(Refused)
         case RejectDrop => Settled(Dropped)
         case RejectReply => Miss)
      case Predefined(answer) => Settled(Canned(answer))
      case _ => Miss
  }

  function Without<T>(xs: seq<T>, k: nat): seq<T>
    requires k < |xs|
  {
    xs[..k] + xs[k + 1..]
  }

  function Disarm(w: Walk, k: nat): Walk
    requires k < |w.armed|
  {
    w.(armed := Without(w.armed, k))
  }

  /** `finishPendingExchange`. */
  function FinishPending(cfg: Config, w: Walk, p: Pending): State {
    if p.future.Some? then
      State(w.(futures := CancelAll(w.futures, p.future)), WaitReply(p))
    else
      Finish(w, Query(p.transport, p.options, cfg.reply(OriginIndex(cfg, p.origin), p.transport, p.options)), p.origin)
  }

  /** One armed rule of a sweep begun by the walk, which hands a committed query
      to the resume loop. */
  function WalkSweepStep(cfg: Config, w: Walk, at: nat): State {
    if at >= |w.armed| then State(w, WalkRule)
    else if !IsReady(w, w.armed[at]) then State(w, WalkSweep(at + 1))
    else
      match Judge(cfg, w, w.armed[at])
      case Miss => State(Disarm(w, at), WalkSweep(at))
      case Settled(o) => Finish(Disarm(w, at), o, FromRace(w.armed[at].rule))
      case Commit(p) => Suspend(w.(armed := []), Ready(p))
  }

  /** One armed rule of a sweep begun by the resume loop. */
  function ResumeSweepStep(cfg: Config, w: Walk, suspension: Suspension, at: nat): State {
    if at >= |w.armed| then State(w, ResumeCheck(suspension))
    else if !IsReady(w, w.armed[at]) then State(w, ResumeSweep(suspension, at + 1))
    else
      match Judge(cfg, w, w.armed[at])
      case Miss => State(Disarm(w, at), ResumeSweep(suspension, at))
      case Settled(o) => Finish(Disarm(w, at), o, FromRace(w.armed[at].rule))
      case Commit(p) => FinishPending(cfg, Disarm(w, at), p)
  }

  /** Whether the resume loop goes back to the walk. */
  predicate Passes(w: Walk, suspension: Suspension) {
    match suspension
    case Await(f) => IsDone(w, f)
    case Drain => w.armed == []
    case Ready(_) => false
  }

  function ResumeCheckStep(cfg: Config, w: Walk, suspension: Suspension): State {
    if suspension.Ready? then FinishPending(cfg, w, suspension.pending)
    else if Passes(w, suspension) then State(w, WalkRule)
    else State(w, Blocked(suspension))
  }

  function WaitReplyStep(w: Walk, p: Pending): State
    requires p.future.Some?
  {
    var f := p.future.value;
    Finish(w, Query(p.transport, p.options, if f < |w.futures| then w.futures[f].reply else NO_REPLY), p.origin)
  }

  // ----- the machine

  predicate MainEnabled(s: State) {
    match s.pc
    case Blocked(_) => s.walk.wake
    case WaitReply(p) => p.future.Some? && IsDone(s.walk, p.future.value)
    case Finished(_, _) => false
    case _ => true
  }

  /** One step of the walking goroutine. */
  function MainStep(cfg: Config, s: State): State
    requires MainEnabled(s)
  {
    match s.pc
    case WalkRule => WalkRuleStep(cfg, s.walk)
    case WalkTest => WalkTestStep(cfg, s.walk)
    case WalkSweep(at) => WalkSweepStep(cfg, s.walk, at)
    case ResumeSettle(suspension) => State(Settle(s.walk), ResumeSweep(suspension, 0))
    case ResumeSweep(suspension, at) => ResumeSweepStep(cfg, s.walk, suspension, at)
    case ResumeCheck(suspension) => ResumeCheckStep(cfg, s.walk, suspension)
    case Blocked(suspension) => State(s.walk.(wake := false), ResumeSettle(suspension))
    case WaitReply(p) => WaitReplyStep(s.walk, p)
  }

  datatype Label = Main | Resolve(future: nat, reply: Reply) | Notify(future: nat) | GiveUp

  /** The reply a future gets: its exchange's, unless it was cancelled first. */
  predicate ReplyAllowed(cfg: Config, f: Future, reply: Reply) {
    f.cancelled || reply == cfg.reply(f.rule, f.transport, f.options)
  }

  function ResolveFuture(w: Walk, k: nat, reply: Reply): Walk
    requires k < |w.futures|
  {
    w.(futures := w.futures[k := w.futures[k].(phase := Resolved, reply := reply)])
  }

  function NotifyFuture(w: Walk, k: nat): Walk
    requires k < |w.futures|
  {
    w.(futures := w.futures[k := w.futures[k].(phase := Notified)], wake := true)
  }

  predicate Step(cfg: Config, s: State, l: Label, s': State) {
    match l
    case Main => MainEnabled(s) && s' == MainStep(cfg, s)
    case Resolve(k, reply) =>
      && k < |s.walk.futures| && s.walk.futures[k].phase == Running && ReplyAllowed(cfg, s.walk.futures[k], reply)
      && s' == State(ResolveFuture(s.walk, k, reply), s.pc)
    case Notify(k) =>
      && k < |s.walk.futures| && s.walk.futures[k].phase == Resolved
      && s' == State(NotifyFuture(s.walk, k), s.pc)
    case GiveUp =>
      && (s.pc.Blocked? || s.pc.WaitReply?)
      && s' == Finish(s.walk, Outcome.Cancelled, Origin.GaveUp)
  }

  /** A run of the machine from the start of a request. */
  ghost predicate Run(cfg: Config, states: seq<State>, labels: seq<Label>) {
    && |states| == |labels| + 1
    && states[0] == Init(cfg)
    && forall i :: 0 <= i < |labels| ==> Step(cfg, states[i], labels[i], states[i + 1])
  }

  /** Between a settle and the readiness tests it is meant for. */
  predicate InWindow(pc: Control) {
    pc.WalkTest? || pc.WalkSweep? || pc.ResumeSweep?
  }

  const NO_OPTIONS := QueryOptions(false, false, None, 0, None, false)

  /** Matching the rule makes a difference: it is none of the rules whose action
      leaves everything as it is. */
  predicate Decides(r: Rule) {
    match r.action
    case SetOptions(o) => !IsRace(r) && o != NO_OPTIONS
    case Evaluate(_, _, _, _) => !IsRace(r)
    case Reject(m) => !m.RejectReply?
    case _ => true
  }

  /** One of the tracked rules decides on this tag. */
  predicate DecidesOn(rules: seq<Rule>, tracked: set<nat>, i: nat, t: string) {
    i < |rules| && i in tracked && Decides(rules[i]) && t in rules[i].tags
  }

  /** A tracked rule that is about to be tested, or may be judged, decides on this tag. */
  ghost predicate Watches(cfg: Config, tracked: set<nat>, w: Walk, pc: Control, t: string) {
    || (exists p :: 0 <= p < |w.armed| && DecidesOn(cfg.rules, tracked, w.armed[p].rule, t))
    || (pc.WalkTest? && DecidesOn(cfg.rules, tracked, w.index, t))
  }

  /** No response lands between a settle and the test of a tracked rule that
      decides on it. */
  ghost predicate TimelyStep(cfg: Config, tracked: set<nat>, s: State, l: Label) {
    l.Resolve? && InWindow(s.pc) && l.future < |s.walk.futures| && s.walk.futures[l.future].tag != "" ==>
      !Watches(cfg, tracked, s.walk, s.pc, s.walk.futures[l.future].tag)
  }

  ghost predicate Timely(cfg: Config, tracked: set<nat>, states: seq<State>, labels: seq<Label>)
    requires |states| == |labels| + 1
  {
    forall i :: 0 <= i < |labels| ==> TimelyStep(cfg, tracked, states[i], labels[i])
  }
}
