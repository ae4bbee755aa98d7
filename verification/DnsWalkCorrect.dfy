/**
 Every timely run of the DNS rule walk gives a correct answer: the proof that
 the suspended, speculative and raced walk follows the synchronous interpreter.
 It keeps track of a set of rules that holds all that end the request or change
 its options, and whatever feeds the rules it holds; timely means that no
 response lands between a settle and the test of a tracked rule that decides on
 it. With all rules tracked the walk knows what the interpreter knows.
 */
module DnsWalkCorrect {
  import opened Common
  import opened DnsWalk
  import opened DnsWalkMeaning
  import opened DnsWalkBounds

  // ----- how a walk state stands for an interpreter state

  function CallOf(f: Future): Call {
    Call(f.rule, f.transport, f.options)
  }

  function Calls(fs: seq<Future>): (cs: seq<Call>)
    ensures |cs| == |fs| && forall k :: 0 <= k < |fs| ==> cs[k] == CallOf(fs[k])
  {
    seq(|fs|, k requires 0 <= k < |fs| => CallOf(fs[k]))
  }

  ghost predicate RefersTo(cs: seq<Call>, f: Option<nat>, c: Option<Call>) {
    if f.None? then c.None? else f.value < |cs| && c == Some(cs[f.value])
  }

  ghost predicate Binds(cs: seq<Call>, named: map<string, nat>, calls: map<string, Call>, t: string) {
    && (t in named <==> t in calls)
    && (t in named ==> named[t] < |cs| && calls[t] == cs[named[t]])
  }

  /** The rules that ask for the anonymous response, so far, are tracked. */
  ghost predicate AnonymousTracked(rules: seq<Rule>, tracked: set<nat>, index: nat) {
    forall e :: 0 <= e < index && e < |rules| && rules[e].action.Evaluate? && rules[e].action.tag == "" && !IsRace(rules[e]) ==>
      e in tracked
  }

  /** The rule that defines the tag is tracked. */
  ghost predicate TagTracked(rules: seq<Rule>, tracked: set<nat>, t: string) {
    forall e :: 0 <= e < |rules| && Defines(rules[e], t) && !IsRace(rules[e]) ==> e in tracked
  }

  /** A tracked rule that decides reads only what is tracked. */
  lemma TrackedReads(rules: seq<Rule>, tracked: set<nat>, k: nat)
    requires Fit(rules, tracked) && k < |rules| && k in tracked && Decides(rules[k])
    ensures forall t :: t in rules[k].tags ==> TagTracked(rules, tracked, t)
    ensures ReadsAnonymous(rules[k]) ==> AnonymousTracked(rules, tracked, k)
  {
    forall e, t | 0 <= e < |rules| && t in rules[k].tags && Defines(rules[e], t) && !IsRace(rules[e]) ensures e in tracked {
      assert Feeds(rules[e], rules[k]);
    }
    forall e | 0 <= e < k && rules[e].action.Evaluate? && rules[e].action.tag == "" && !IsRace(rules[e]) && ReadsAnonymous(rules[k])
      ensures e in tracked
    {
      assert Feeds(rules[e], rules[k]);
    }
  }

  /** The options are the interpreter's at this rule, and so are the bindings that
      tracked rules made. */
  ghost predicate Track(cfg: Config, tracked: set<nat>, index: nat, options: QueryOptions, anonymous: Option<nat>, named: map<string, nat>, cs: seq<Call>) {
    && index <= |cfg.rules| && SyncAt(cfg, index).Some?
    && var y := SyncAt(cfg, index).value;
       && y.options == options
       && (AnonymousTracked(cfg.rules, tracked, index) ==> RefersTo(cs, anonymous, y.anonymous))
       && (forall t :: TagTracked(cfg.rules, tracked, t) ==> Binds(cs, named, y.named, t))
  }

  /** A tagged future was launched by a rule before that defines its tag. */
  ghost predicate TagsBefore(cfg: Config, fs: seq<Future>, index: nat) {
    forall k :: 0 <= k < |fs| && fs[k].tag != "" ==>
      fs[k].rule < index && fs[k].rule < |cfg.rules| && Defines(cfg.rules[fs[k].rule], fs[k].tag)
  }

  /** A tagged future is the one its tag is bound to. */
  ghost predicate TagsOk(fs: seq<Future>, named: map<string, nat>) {
    && (forall k :: 0 <= k < |fs| && fs[k].tag != "" ==> fs[k].tag in named && named[fs[k].tag] == k)
    && (forall t :: t in named ==> t != "" && named[t] < |fs| && fs[named[t]].tag == t)
  }

  /** A tag has a named response once its future is settled, and it is that one's. */
  ghost predicate ResponseOk(fs: seq<Future>, named: map<string, nat>, responses: map<string, Option<Msg>>, transports: map<string, string>, t: string) {
    && (t in responses <==> t in named && named[t] < |fs| && fs[named[t]].settled)
    && (t in responses ==>
          && fs[named[t]].Done() && responses[t] == fs[named[t]].View()
          && t in transports && transports[t] == fs[named[t]].transport)
  }

  ghost predicate ResponsesOk(fs: seq<Future>, named: map<string, nat>, responses: map<string, Option<Msg>>, transports: map<string, string>) {
    forall t :: ResponseOk(fs, named, responses, transports, t)
  }

  /** An exchange that was not cancelled delivered its own reply. */
  ghost predicate Honest(cfg: Config, fs: seq<Future>) {
    forall k :: 0 <= k < |fs| && fs[k].Done() && !fs[k].cancelled ==> fs[k].reply == CallReply(cfg, CallOf(fs[k]))
  }

  ghost predicate NoneCancelled(fs: seq<Future>) {
    forall k :: 0 <= k < |fs| ==> !fs[k].cancelled
  }

  /** A resolved response of this tag is not missing from the named responses. */
  ghost predicate TagSettled(fs: seq<Future>, t: string) {
    forall k :: 0 <= k < |fs| && fs[k].tag == t && fs[k].Done() ==> fs[k].settled
  }

  /** Nor is any response that a rule decides on. */
  ghost predicate RuleSettled(fs: seq<Future>, r: Rule) {
    Decides(r) ==> forall t :: t in r.tags && t != "" ==> TagSettled(fs, t)
  }

  ghost predicate WatchedSettled(cfg: Config, tracked: set<nat>, w: Walk, pc: Control) {
    forall t :: t != "" && Watches(cfg, tracked, w, pc, t) ==> TagSettled(w.futures, t)
  }

  /** Whatever a parked rule binds is resolved once its own list is. */
  ghost predicate Covers(w: Walk, a: Armed, f: nat) {
    f in a.futures || (f < |w.futures| && w.futures[f].Done())
  }

  ghost predicate ArmedOk(cfg: Config, w: Walk, a: Armed) {
    && a.rule < w.index <= |cfg.rules| && IsRace(cfg.rules[a.rule]) && SyncAt(cfg, a.rule).Some?
    && var r := cfg.rules[a.rule];
       var y := SyncAt(cfg, a.rule).value;
       && a.options == y.options && a.bindsAnonymous == r.anonymous
       && (Decides(r) ==> RefersTo(Calls(w.futures), a.anonymous, if r.anonymous then y.anonymous else None))
       && (a.anonymous.Some? ==> Covers(w, a, a.anonymous.value))
       && (r.tags == [] && a.anonymous.None? ==> a.futures == [])
       && (forall t :: t in r.tags && t in w.named ==> Covers(w, a, w.named[t]))
  }

  ghost predicate AllArmedOk(cfg: Config, w: Walk) {
    forall p :: 0 <= p < |w.armed| ==> ArmedOk(cfg, w, w.armed[p])
  }

  ghost predicate IsArmed(armed: seq<Armed>, j: nat) {
    exists p :: 0 <= p < |armed| && armed[p].rule == j
  }

  ghost predicate Missed(cfg: Config, j: nat)
    requires j < |cfg.rules|
  {
    SyncAt(cfg, j).Some? && RaceVerdict(cfg, j, SyncAt(cfg, j).value).None?
  }

  /** A race rule the walk has passed is parked, or has nothing to say. */
  ghost predicate RacesOk(cfg: Config, index: nat, armed: seq<Armed>) {
    forall j :: 0 <= j < index && j < |cfg.rules| && IsRace(cfg.rules[j]) ==> IsArmed(armed, j) || Missed(cfg, j)
  }

  /** A speculative query is the one the current rule stops with. */
  ghost predicate TerminalOk(cfg: Config, index: nat, terminal: Option<nat>, terminalIndex: nat, cs: seq<Call>) {
    terminal.Some? ==>
      && terminal.value < |cs| && terminalIndex == index < |cfg.rules| && SyncAt(cfg, index).Some?
      && cs[terminal.value].rule == index
      && SyncRule(cfg, index, SyncAt(cfg, index).value) == Stop(CallOutcome(cfg, cs[terminal.value]))
  }

  ghost predicate Live(cfg: Config, tracked: set<nat>, w: Walk) {
    && Track(cfg, tracked, w.index, w.options, w.anonymous, w.named, Calls(w.futures))
    && TagsOk(w.futures, w.named) && TagsBefore(cfg, w.futures, w.index)
    && ResponsesOk(w.futures, w.named, w.responses, w.transports)
    && NoneCancelled(w.futures)
    && AllArmedOk(cfg, w)
    && RacesOk(cfg, w.index, w.armed)
    && TerminalOk(cfg, w.index, w.terminal, w.terminalIndex, Calls(w.futures))
  }

  /** A pending query is a correct answer, and so is the reply it waits for. */
  ghost predicate PendingOk(cfg: Config, fs: seq<Future>, p: Pending) {
    && Correct(cfg, CallOutcome(cfg, Call(OriginIndex(cfg, p.origin), p.transport, p.options)), p.origin)
    && (p.future.Some? ==>
          && p.future.value < |fs| && !fs[p.future.value].cancelled
          && CallOf(fs[p.future.value]) == Call(OriginIndex(cfg, p.origin), p.transport, p.options))
  }

  /** A rule that is ready when it is parked is judged in the sweep it starts. */
  ghost predicate NoneReady(armed: seq<Armed>) {
    forall p :: 0 <= p < |armed| ==> armed[p].futures != []
  }

  ghost predicate ReadyAhead(armed: seq<Armed>, anonymous: Option<nat>, at: nat) {
    forall p :: 0 <= p < |armed| && armed[p].futures == [] ==>
      at <= p && (armed[p].bindsAnonymous ==> armed[p].anonymous == anonymous)
  }

  /** The query that the walk has settled on, if it has. */
  function PendingOf(pc: Control): Option<Pending> {
    match pc
    case WaitReply(p) => Some(p)
    case ResumeSettle(Ready(p)) => Some(p)
    case ResumeSweep(Ready(p), _) => Some(p)
    case ResumeCheck(Ready(p)) => Some(p)
    case _ => None
  }

  ghost predicate ParkedOk(cfg: Config, tracked: set<nat>, w: Walk, pc: Control) {
    && (InWindow(pc) ==> WatchedSettled(cfg, tracked, w, pc))
    && (if pc.WalkSweep? then ReadyAhead(w.armed, w.anonymous, pc.at) else NoneReady(w.armed))
  }

  ghost predicate PcOk(cfg: Config, tracked: set<nat>, w: Walk, pc: Control) {
    if pc.Finished? then Correct(cfg, pc.outcome, pc.origin)
    else if PendingOf(pc).Some? then
      PendingOk(cfg, w.futures, PendingOf(pc).value) && (!pc.WaitReply? ==> w.armed == [])
    else Live(cfg, tracked, w) && ParkedOk(cfg, tracked, w, pc)
  }

  ghost predicate Sound(cfg: Config, tracked: set<nat>, s: State) {
    Honest(cfg, s.walk.futures) && PcOk(cfg, tracked, s.walk, s.pc)
  }

  lemma LiveSound(cfg: Config, tracked: set<nat>, w: Walk, pc: Control)
    requires Live(cfg, tracked, w) && Honest(cfg, w.futures) && NoneReady(w.armed)
    requires pc == WalkRule || pc == ResumeSettle(Drain) || (pc.ResumeSettle? && pc.suspension.Await?)
    ensures Sound(cfg, tracked, State(w, pc))
  {}

  lemma InitSound(cfg: Config, tracked: set<nat>)
    ensures Sound(cfg, tracked, Init(cfg))
  {}

  // ----- settling

  lemma SettleOneTag(w: Walk, k: nat, t: string)
    requires k < |w.futures| && TagsOk(w.futures, w.named)
    requires ResponseOk(w.futures, w.named, w.responses, w.transports, t)
    ensures var v := SettleOne(w, k);
            v.named == w.named && ResponseOk(v.futures, v.named, v.responses, v.transports, t)
  {
    var f := w.futures[k];
    if t in w.named && w.named[t] < |w.futures| {
      assert w.futures[w.named[t]].tag == t;
    }
    if f.tag != "" {
      assert w.named[f.tag] == k;
    }
  }

  lemma {:induction false} SettleFromTag(w: Walk, k: nat, t: string)
    requires k <= |w.futures| && TagsOk(w.futures, w.named)
    requires ResponseOk(w.futures, w.named, w.responses, w.transports, t)
    ensures var v := SettleFrom(w, k);
            ResponseOk(v.futures, v.named, v.responses, v.transports, t)
    decreases |w.futures| - k
  {
    if k < |w.futures| {
      SettleOneTag(w, k, t);
      assert TagsOk(SettleOne(w, k).futures, w.named);
      SettleFromTag(SettleOne(w, k), k + 1, t);
    }
  }

  // ----- how the parts of `Live` carry over

  lemma CallsSame(fs: seq<Future>, gs: seq<Future>)
    requires |fs| == |gs| && forall k :: 0 <= k < |fs| ==> CallOf(fs[k]) == CallOf(gs[k])
    ensures Calls(fs) == Calls(gs)
  {}

  lemma ArmedOkMono(cfg: Config, w: Walk, v: Walk, a: Armed)
    requires ArmedOk(cfg, w, a) && w.index <= v.index <= |cfg.rules|
    requires |w.futures| <= |v.futures|
    requires forall k :: 0 <= k < |w.futures| ==> CallOf(v.futures[k]) == CallOf(w.futures[k])
    requires forall k :: 0 <= k < |w.futures| && w.futures[k].Done() ==> v.futures[k].Done()
    requires forall t :: t in cfg.rules[a.rule].tags && t in v.named ==> t in w.named && v.named[t] == w.named[t]
    ensures ArmedOk(cfg, v, a)
  {
    forall f | Covers(w, a, f) ensures Covers(v, a, f) {}
  }

  lemma AllArmedMono(cfg: Config, w: Walk, v: Walk)
    requires AllArmedOk(cfg, w) && w.index <= v.index <= |cfg.rules|
    requires |w.futures| <= |v.futures| && v.named == w.named
    requires forall k :: 0 <= k < |w.futures| ==> CallOf(v.futures[k]) == CallOf(w.futures[k])
    requires forall k :: 0 <= k < |w.futures| && w.futures[k].Done() ==> v.futures[k].Done()
    requires forall p :: 0 <= p < |v.armed| ==> v.armed[p] in w.armed
    ensures AllArmedOk(cfg, v)
  {
    forall p | 0 <= p < |v.armed| ensures ArmedOk(cfg, v, v.armed[p]) {
      assert v.armed[p] in w.armed;
      ArmedOkMono(cfg, w, v, v.armed[p]);
    }
  }

  /** Only what happened to the futures has changed, not what they are. */
  ghost predicate Progress(w: Walk, v: Walk) {
    && v == w.(futures := v.futures, responses := v.responses, transports := v.transports, wake := v.wake)
    && |v.futures| == |w.futures|
    && (forall k :: 0 <= k < |w.futures| ==> CallOf(v.futures[k]) == CallOf(w.futures[k]))
    && (forall k :: 0 <= k < |w.futures| ==> v.futures[k].tag == w.futures[k].tag && v.futures[k].cancelled == w.futures[k].cancelled)
    && (forall k :: 0 <= k < |w.futures| && w.futures[k].Done() ==> v.futures[k].Done())
  }

  lemma ProgressLive(cfg: Config, tracked: set<nat>, w: Walk, v: Walk)
    requires Live(cfg, tracked, w) && Progress(w, v)
    requires ResponsesOk(v.futures, v.named, v.responses, v.transports)
    ensures Live(cfg, tracked, v)
  {
    CallsSame(w.futures, v.futures);
    AllArmedMono(cfg, w, v);
  }

  lemma SettleProgress(w: Walk)
    ensures Progress(w, Settle(w)) && Settle(w).wake == w.wake
    ensures forall k :: 0 <= k < |w.futures| ==> Settle(w).futures[k] == SettleMark(w.futures[k])
  {
    SettleFromFrame(w, 0);
  }

  lemma SettleLive(cfg: Config, tracked: set<nat>, w: Walk)
    requires Live(cfg, tracked, w)
    ensures Live(cfg, tracked, Settle(w)) && forall t :: TagSettled(Settle(w).futures, t)
  {
    SettleProgress(w);
    var v := Settle(w);
    forall t ensures ResponseOk(v.futures, v.named, v.responses, v.transports, t) {
      assert ResponseOk(w.futures, w.named, w.responses, w.transports, t);
      SettleFromTag(w, 0, t);
    }
    ProgressLive(cfg, tracked, w, v);
  }

  lemma SettleHonest(cfg: Config, w: Walk)
    requires Honest(cfg, w.futures)
    ensures Honest(cfg, Settle(w).futures)
  {
    SettleProgress(w);
  }

  lemma SettlePending(cfg: Config, w: Walk, p: Pending)
    requires PendingOk(cfg, w.futures, p)
    ensures PendingOk(cfg, Settle(w).futures, p) && Settle(w).armed == w.armed
  {
    SettleProgress(w);
  }

  // ----- what a rule sees is what the interpreter sees

  lemma DoneView(cfg: Config, w: Walk, f: nat)
    requires Honest(cfg, w.futures) && NoneCancelled(w.futures) && f < |w.futures| && w.futures[f].Done()
    ensures FutureView(w, f) == CallView(cfg, CallOf(w.futures[f]))
  {}

  /** The named response of a bound tag, once its future is done and settled. */
  lemma TagView(cfg: Config, w: Walk, y: Sync, t: string)
    requires Honest(cfg, w.futures) && NoneCancelled(w.futures) && TagSettled(w.futures, t)
    requires TagsOk(w.futures, w.named) && ResponseOk(w.futures, w.named, w.responses, w.transports, t)
    requires t in w.named ==> IsDone(w, w.named[t])
    requires Lookup(y, t) == if t in w.named then Some(CallOf(w.futures[w.named[t]])) else None
    ensures Get(w.responses, t) == Get(SyncView(cfg, y).named, t)
    ensures TaggedAnswer(w, t) == CallAnswer(cfg, Lookup(y, t))
  {
    if t in w.named {
      assert w.futures[w.named[t]].tag == t;
      DoneView(cfg, w, w.named[t]);
    }
  }

  /** The same for any tag a rule lists; no response is named "". */
  lemma BoundView(cfg: Config, tracked: set<nat>, w: Walk, y: Sync, t: string)
    requires Live(cfg, tracked, w) && Honest(cfg, w.futures) && (t != "" ==> TagSettled(w.futures, t))
    requires t in w.named ==> IsDone(w, w.named[t])
    requires Lookup(y, t) == if t in w.named then Some(CallOf(w.futures[w.named[t]])) else None
    ensures Get(w.responses, t) == Get(SyncView(cfg, y).named, t)
    ensures TaggedAnswer(w, t) == CallAnswer(cfg, Lookup(y, t))
  {
    assert ResponseOk(w.futures, w.named, w.responses, w.transports, t);
    if t != "" {
      TagView(cfg, w, y, t);
    }
  }

  lemma AnonymousAnswer(cfg: Config, w: Walk, f: Option<nat>, c: Option<Call>)
    requires Honest(cfg, w.futures) && NoneCancelled(w.futures)
    requires RefersTo(Calls(w.futures), f, c) && (f.Some? ==> IsDone(w, f.value))
    ensures FutureAnswer(w, f) == CallAnswer(cfg, c)
    ensures (if f.Some? then FutureView(w, f.value) else None) == (if c.Some? then CallView(cfg, c.value) else None)
  {
    if f.Some? { DoneView(cfg, w, f.value); }
  }

  lemma {:induction false} NothingPending(w: Walk, tags: seq<string>, t: string)
    requires FirstPending(w, tags).None? && t in tags && t in w.named
    ensures IsDone(w, w.named[t])
  {
    if t != tags[0] { NothingPending(w, tags[1..], t); }
  }

  lemma NamedLookup(cs: seq<Call>, named: map<string, nat>, y: Sync, t: string)
    requires Binds(cs, named, y.named, t)
    ensures Lookup(y, t) == if t in named then Some(cs[named[t]]) else None
  {}

  lemma WalkAgrees(cfg: Config, tracked: set<nat>, w: Walk, r: Rule)
    requires Live(cfg, tracked, w) && Honest(cfg, w.futures) && Decides(r) && RuleSettled(w.futures, r) && AwaitFor(w, r).None?
    requires Fit(cfg.rules, tracked) && w.index in tracked && w.index < |cfg.rules| && cfg.rules[w.index] == r
    ensures Agree(r, CurrentView(w), SyncView(cfg, SyncAt(cfg, w.index).value))
  {
    var y := SyncAt(cfg, w.index).value;
    TrackedReads(cfg.rules, tracked, w.index);
    forall t | t in r.tags ensures Get(w.responses, t) == Get(SyncView(cfg, y).named, t) {
      if t in w.named { NothingPending(w, r.tags, t); }
      NamedLookup(Calls(w.futures), w.named, y, t);
      BoundView(cfg, tracked, w, y, t);
    }
    if r.anonymous {
      AnonymousAnswer(cfg, w, w.anonymous, y.anonymous);
    }
  }

  // ----- stopping with a correct answer

  lemma NoArmedMiss(cfg: Config, i: nat)
    requires i <= |cfg.rules| && RacesOk(cfg, i, [])
    ensures RacesMissBefore(cfg, i)
  {
    forall j | 0 <= j < i && IsRace(cfg.rules[j]) ensures Missed(cfg, j) {
      assert !IsArmed([], j);
    }
  }

  lemma StopCorrect(cfg: Config, i: nat, o: Outcome)
    requires i < |cfg.rules| && SyncAt(cfg, i).Some? && RacesOk(cfg, i, [])
    requires SyncRule(cfg, i, SyncAt(cfg, i).value) == Stop(o)
    ensures Correct(cfg, o, FromRule(i))
  {
    MeaningFromHere(cfg, i);
    NoArmedMiss(cfg, i);
  }

  lemma DefaultCorrect(cfg: Config, options: QueryOptions)
    requires SyncAt(cfg, |cfg.rules|).Some? && SyncAt(cfg, |cfg.rules|).value.options == options
    requires RacesOk(cfg, |cfg.rules|, [])
    ensures Correct(cfg, CallOutcome(cfg, Call(|cfg.rules|, cfg.fallback, options)), FromDefault)
  {
    MeaningFromHere(cfg, |cfg.rules|);
    NoArmedMiss(cfg, |cfg.rules|);
  }

  lemma CancelHonest(cfg: Config, fs: seq<Future>, spare: Option<nat>)
    requires Honest(cfg, fs)
    ensures Honest(cfg, CancelAll(fs, spare))
  {}

  lemma FinishSound(cfg: Config, tracked: set<nat>, w: Walk, o: Outcome, g: Origin)
    requires Honest(cfg, w.futures) && Correct(cfg, o, g)
    ensures Sound(cfg, tracked, Finish(w, o, g))
  {
    CancelHonest(cfg, w.futures, None);
  }

  // ----- going on to the next rule

  lemma RacesAdvance(cfg: Config, index: nat, armed: seq<Armed>)
    requires RacesOk(cfg, index, armed) && index < |cfg.rules| && !IsRace(cfg.rules[index])
    ensures RacesOk(cfg, index + 1, armed)
  {}

  lemma NextHasNoTerminal(cfg: Config, tracked: set<nat>, w: Walk)
    requires Live(cfg, tracked, w) && w.index < |cfg.rules|
    requires SyncRule(cfg, w.index, SyncAt(cfg, w.index).value).Next?
    ensures w.terminal.None?
  {}

  /** A rule that changes nothing for the interpreter is passed. */
  lemma TrackPass(cfg: Config, tracked: set<nat>, index: nat, options: QueryOptions, anonymous: Option<nat>, named: map<string, nat>, cs: seq<Call>)
    requires Track(cfg, tracked, index, options, anonymous, named, cs) && index < |cfg.rules|
    requires SyncRule(cfg, index, SyncAt(cfg, index).value) == Next(SyncAt(cfg, index).value)
    ensures Track(cfg, tracked, index + 1, options, anonymous, named, cs)
  {
    assert SyncAt(cfg, index + 1) == SyncAt(cfg, index);
  }

  lemma AdvanceLive(cfg: Config, tracked: set<nat>, w: Walk, v: Walk)
    requires Live(cfg, tracked, w) && w.index < |cfg.rules| && !IsRace(cfg.rules[w.index]) && w.terminal.None?
    requires v == w.(index := w.index + 1, options := v.options, anonymous := v.anonymous)
    requires Track(cfg, tracked, v.index, v.options, v.anonymous, v.named, Calls(v.futures))
    ensures Live(cfg, tracked, v)
  {
    RacesAdvance(cfg, w.index, w.armed);
    AllArmedMono(cfg, w, v);
  }

  lemma AdvanceSound(cfg: Config, tracked: set<nat>, w: Walk, v: Walk)
    requires Live(cfg, tracked, w) && w.index < |cfg.rules| && !IsRace(cfg.rules[w.index]) && w.terminal.None?
    requires Honest(cfg, w.futures) && NoneReady(w.armed)
    requires v == w.(index := w.index + 1, options := v.options, anonymous := v.anonymous)
    requires Track(cfg, tracked, v.index, v.options, v.anonymous, v.named, Calls(v.futures))
    ensures Sound(cfg, tracked, State(v, WalkRule))
  {
    AdvanceLive(cfg, tracked, w, v);
    LiveSound(cfg, tracked, v, WalkRule);
  }

  lemma FreshTag(cfg: Config, w: Walk, t: string)
    requires TagsOk(w.futures, w.named) && TagsBefore(cfg, w.futures, w.index) && w.index < |cfg.rules|
    requires Accepted(cfg.rules) && Defines(cfg.rules[w.index], t)
    ensures t !in w.named
  {
    assert t in w.named ==> w.futures[w.named[t]].tag == t;
  }

  lemma CallsPush(fs: seq<Future>, f: Future)
    ensures Calls(fs + [f]) == Calls(fs) + [CallOf(f)]
  {}

  lemma LaunchTags(w: Walk, f: Future)
    requires TagsOk(w.futures, w.named) && (f.tag != "" ==> f.tag !in w.named)
    ensures TagsOk(w.futures + [f], if f.tag == "" then w.named else w.named[f.tag := |w.futures|])
  {}

  lemma LaunchResponses(w: Walk, f: Future)
    requires TagsOk(w.futures, w.named) && ResponsesOk(w.futures, w.named, w.responses, w.transports)
    requires !f.settled && (f.tag != "" ==> f.tag !in w.named)
    ensures ResponsesOk(w.futures + [f], if f.tag == "" then w.named else w.named[f.tag := |w.futures|], w.responses, w.transports)
  {
    var named := if f.tag == "" then w.named else w.named[f.tag := |w.futures|];
    forall t ensures ResponseOk(w.futures + [f], named, w.responses, w.transports, t) {
      assert ResponseOk(w.futures, w.named, w.responses, w.transports, t);
      if t in w.named { assert (w.futures + [f])[w.named[t]] == w.futures[w.named[t]]; }
    }
  }

  lemma TrackLaunch(cfg: Config, tracked: set<nat>, w: Walk, a: Action)
    requires Track(cfg, tracked, w.index, w.options, w.anonymous, w.named, Calls(w.futures)) && w.index < |cfg.rules|
    requires a.Evaluate? && a.server in cfg.servers && RefShape(w.anonymous, w.named, w.terminal, |w.futures|)
    requires SyncRule(cfg, w.index, SyncAt(cfg, w.index).value) == Next(SyncEvaluate(cfg, w.index, SyncAt(cfg, w.index).value, a))
    ensures var v := BindFuture(w, a); Track(cfg, tracked, w.index + 1, v.options, v.anonymous, v.named, Calls(v.futures))
  {
    var f := NewFuture(w, a.tag, a.server, Apply(w.options, a.options));
    CallsPush(w.futures, f);
    BindFrame(w, a);
    var v, y := BindFuture(w, a), SyncAt(cfg, w.index).value;
    var z := SyncEvaluate(cfg, w.index, y, a);
    forall t | TagTracked(cfg.rules, tracked, t) ensures Binds(Calls(v.futures), v.named, z.named, t) {
      assert Binds(Calls(w.futures), w.named, y.named, t);
    }
  }

  /** Whether an untracked evaluate rule launches, here or in the interpreter,
      makes no difference to what is tracked. */
  lemma TrackLoose(cfg: Config, tracked: set<nat>, w: Walk, v: Walk, a: Action)
    requires Track(cfg, tracked, w.index, w.options, w.anonymous, w.named, Calls(w.futures)) && w.index < |cfg.rules|
    requires w.index !in tracked && cfg.rules[w.index].action == a && a.Evaluate? && !IsRace(cfg.rules[w.index])
    requires v.options == w.options && Calls(w.futures) <= Calls(v.futures)
    requires a.tag != "" ==> v.anonymous == w.anonymous
    requires forall t :: t != a.tag ==> (t in v.named <==> t in w.named) && (t in w.named ==> v.named[t] == w.named[t])
    requires "" !in v.named && "" !in w.named
    ensures Track(cfg, tracked, w.index + 1, v.options, v.anonymous, v.named, Calls(v.futures))
  {
    var y := SyncAt(cfg, w.index).value;
    var z := SyncRule(cfg, w.index, y).sync;
    assert a.tag != "" ==> Defines(cfg.rules[w.index], a.tag);
    EmptyTagUnnamed(cfg, w.index);
    forall t | TagTracked(cfg.rules, tracked, t) ensures Binds(Calls(v.futures), v.named, z.named, t) {
      assert Binds(Calls(w.futures), w.named, y.named, t);
    }
  }

  lemma LaunchArmed(cfg: Config, w: Walk, a: Action)
    requires AllArmedOk(cfg, w) && Accepted(cfg.rules) && w.index < |cfg.rules| && cfg.rules[w.index].action == a
    requires a.Evaluate? && RefShape(w.anonymous, w.named, w.terminal, |w.futures|)
    ensures AllArmedOk(cfg, Advance(BindFuture(w, a)).walk)
  {
    var v := Advance(BindFuture(w, a)).walk;
    BindFrame(w, a);
    forall p | 0 <= p < |v.armed| ensures ArmedOk(cfg, v, v.armed[p]) {
      assert ArmedOk(cfg, w, w.armed[p]);
      if a.tag != "" { assert Defines(cfg.rules[w.index], a.tag); }
      ArmedOkMono(cfg, w, v, w.armed[p]);
    }
  }

  lemma LaunchFutures(cfg: Config, w: Walk, a: Action)
    requires a.Evaluate? && RefShape(w.anonymous, w.named, w.terminal, |w.futures|)
    requires TagsOk(w.futures, w.named) && ResponsesOk(w.futures, w.named, w.responses, w.transports)
    requires NoneCancelled(w.futures) && (a.tag != "" ==> a.tag !in w.named)
    ensures var v := Advance(BindFuture(w, a)).walk;
            && TagsOk(v.futures, v.named) && ResponsesOk(v.futures, v.named, v.responses, v.transports)
            && NoneCancelled(v.futures)
  {
    var f := NewFuture(w, a.tag, a.server, Apply(w.options, a.options));
    BindFrame(w, a);
    LaunchTags(w, f);
    LaunchResponses(w, f);
  }

  lemma LaunchBefore(cfg: Config, w: Walk, a: Action)
    requires TagsBefore(cfg, w.futures, w.index) && w.index < |cfg.rules| && cfg.rules[w.index].action == a && a.Evaluate?
    requires RefShape(w.anonymous, w.named, w.terminal, |w.futures|)
    ensures TagsBefore(cfg, BindFuture(w, a).futures, w.index + 1)
  {
    BindFrame(w, a);
  }

  lemma LaunchLive(cfg: Config, tracked: set<nat>, w: Walk, a: Action)
    requires Live(cfg, tracked, w) && Fit(cfg.rules, tracked) && w.index < |cfg.rules| && cfg.rules[w.index].action == a
    requires a.Evaluate? && a.server in cfg.servers && !IsRace(cfg.rules[w.index]) && w.terminal.None?
    requires RefShape(w.anonymous, w.named, w.terminal, |w.futures|)
    requires var v := BindFuture(w, a); Track(cfg, tracked, w.index + 1, v.options, v.anonymous, v.named, Calls(v.futures))
    ensures Live(cfg, tracked, Advance(BindFuture(w, a)).walk)
  {
    var v := Advance(BindFuture(w, a)).walk;
    BindFrame(w, a);
    assert v.index == w.index + 1 && v.armed == w.armed && v.terminal.None?;
    if a.tag != "" { FreshTag(cfg, w, a.tag); }
    LaunchFutures(cfg, w, a);
    LaunchBefore(cfg, w, a);
    RacesAdvance(cfg, w.index, w.armed);
    LaunchArmed(cfg, w, a);
  }

  lemma LaunchSound(cfg: Config, tracked: set<nat>, w: Walk, a: Action)
    requires Live(cfg, tracked, w) && Fit(cfg.rules, tracked) && w.index < |cfg.rules| && cfg.rules[w.index].action == a
    requires a.Evaluate? && a.server in cfg.servers && !IsRace(cfg.rules[w.index]) && w.terminal.None?
    requires RefShape(w.anonymous, w.named, w.terminal, |w.futures|) && Honest(cfg, w.futures) && NoneReady(w.armed)
    requires var v := BindFuture(w, a); Track(cfg, tracked, w.index + 1, v.options, v.anonymous, v.named, Calls(v.futures))
    ensures Sound(cfg, tracked, Advance(BindFuture(w, a)))
  {
    LaunchLive(cfg, tracked, w, a);
    BindFrame(w, a);
    LiveSound(cfg, tracked, Advance(BindFuture(w, a)).walk, WalkRule);
  }

  // ----- acting on a rule of the ordinary walk

  /** The facts an action relies on: the rule is the interpreter's next one, and
      the interpreter matched it too. */
  ghost predicate Acting(cfg: Config, tracked: set<nat>, w: Walk) {
    && Live(cfg, tracked, w) && NoneReady(w.armed)
    && Honest(cfg, w.futures) && RefShape(w.anonymous, w.named, w.terminal, |w.futures|)
    && w.index < |cfg.rules| && !IsRace(cfg.rules[w.index])
    && cfg.matches(w.index, SyncView(cfg, SyncAt(cfg, w.index).value))
  }

  lemma PassSound(cfg: Config, tracked: set<nat>, w: Walk)
    requires Live(cfg, tracked, w) && Honest(cfg, w.futures) && NoneReady(w.armed)
    requires w.index < |cfg.rules| && !IsRace(cfg.rules[w.index])
    requires SyncRule(cfg, w.index, SyncAt(cfg, w.index).value) == Next(SyncAt(cfg, w.index).value)
    ensures Sound(cfg, tracked, Advance(w))
  {
    NextHasNoTerminal(cfg, tracked, w);
    TrackPass(cfg, tracked, w.index, w.options, w.anonymous, w.named, Calls(w.futures));
    AdvanceSound(cfg, tracked, w, Advance(w).walk);
  }

  lemma SetOptionsSound(cfg: Config, tracked: set<nat>, w: Walk, o: RouteOptions)
    requires Acting(cfg, tracked, w) && cfg.rules[w.index].action == SetOptions(o)
    ensures Sound(cfg, tracked, Advance(w.(options := Apply(w.options, o))))
  {
    NextHasNoTerminal(cfg, tracked, w);
    AdvanceSound(cfg, tracked, w, Advance(w.(options := Apply(w.options, o))).walk);
  }

  lemma EvaluateLaunched(cfg: Config, tracked: set<nat>, w: Walk, a: Action)
    requires Acting(cfg, tracked, w) && Fit(cfg.rules, tracked) && cfg.rules[w.index].action == a && a.Evaluate? && a.server in cfg.servers
    ensures Sound(cfg, tracked, Advance(BindFuture(w, a)))
  {
    NextHasNoTerminal(cfg, tracked, w);
    TrackLaunch(cfg, tracked, w, a);
    LaunchSound(cfg, tracked, w, a);
  }

  lemma EvaluateMissing(cfg: Config, tracked: set<nat>, w: Walk, a: Action, v: Walk)
    requires Acting(cfg, tracked, w) && cfg.rules[w.index].action == a && a.Evaluate? && a.server !in cfg.servers
    requires v == w.(index := w.index + 1, anonymous := if a.tag == "" then None else w.anonymous)
    ensures Sound(cfg, tracked, State(v, WalkRule))
  {
    NextHasNoTerminal(cfg, tracked, w);
    AdvanceSound(cfg, tracked, w, v);
  }

  lemma EvaluateSound(cfg: Config, tracked: set<nat>, w: Walk, a: Action)
    requires Acting(cfg, tracked, w) && Fit(cfg.rules, tracked) && cfg.rules[w.index].action == a && a.Evaluate?
    ensures Sound(cfg, tracked, ActEvaluate(cfg, w, a))
  {
    var t := ActEvaluate(cfg, w, a);
    if a.server !in cfg.servers {
      EvaluateMissing(cfg, tracked, w, a, t.walk);
      assert Sound(cfg, tracked, t);
    } else if a.speculative || w.armed == [] {
      assert t == Advance(BindFuture(w, a));
      EvaluateLaunched(cfg, tracked, w, a);
    } else {
      assert t == Suspend(w, Drain);
      LiveSound(cfg, tracked, w, ResumeSettle(Drain));
    }
  }

  lemma RespondSound(cfg: Config, tracked: set<nat>, w: Walk, r: Rule)
    requires Acting(cfg, tracked, w) && Fit(cfg.rules, tracked) && cfg.rules[w.index] == r && r.action.Respond?
    requires HasBindings(r) ==> AwaitFor(w, r).None? && RuleSettled(w.futures, r)
    ensures Sound(cfg, tracked, ActRespond(w, r))
  {
    if w.armed != [] {
      LiveSound(cfg, tracked, w, ResumeSettle(Drain));
    } else if r.respondTag != "" {
      RespondTagged(cfg, tracked, w, r);
    } else {
      RespondAnonymous(cfg, tracked, w, r);
    }
  }

  lemma RespondTagged(cfg: Config, tracked: set<nat>, w: Walk, r: Rule)
    requires Acting(cfg, tracked, w) && Fit(cfg.rules, tracked) && cfg.rules[w.index] == r && r.action.Respond?
    requires HasBindings(r) ==> AwaitFor(w, r).None? && RuleSettled(w.futures, r)
    requires w.armed == [] && r.respondTag != ""
    ensures Sound(cfg, tracked, ActRespond(w, r))
  {
    var y := SyncAt(cfg, w.index).value;
    TrackedReads(cfg.rules, tracked, w.index);
    if r.respondTag in w.named { NothingPending(w, r.tags, r.respondTag); }
    NamedLookup(Calls(w.futures), w.named, y, r.respondTag);
    BoundView(cfg, tracked, w, y, r.respondTag);
    StopCorrect(cfg, w.index, TaggedAnswer(w, r.respondTag));
    FinishSound(cfg, tracked, w, TaggedAnswer(w, r.respondTag), FromRule(w.index));
  }

  lemma RespondAnonymous(cfg: Config, tracked: set<nat>, w: Walk, r: Rule)
    requires Acting(cfg, tracked, w) && Fit(cfg.rules, tracked) && cfg.rules[w.index] == r && r.action.Respond?
    requires HasBindings(r) ==> AwaitFor(w, r).None?
    requires w.armed == [] && r.respondTag == ""
    ensures Sound(cfg, tracked, ActRespond(w, r))
  {
    var y := SyncAt(cfg, w.index).value;
    TrackedReads(cfg.rules, tracked, w.index);
    if HasBindings(r) || w.anonymous.None? || IsDone(w, w.anonymous.value) {
      AnonymousAnswer(cfg, w, w.anonymous, y.anonymous);
      StopCorrect(cfg, w.index, FutureAnswer(w, w.anonymous));
      FinishSound(cfg, tracked, w, FutureAnswer(w, w.anonymous), FromRule(w.index));
    } else {
      LiveSound(cfg, tracked, w, ResumeSettle(Await(w.anonymous.value)));
    }
  }

  lemma SpeculateLive(cfg: Config, tracked: set<nat>, w: Walk, server: string, options: QueryOptions)
    requires Live(cfg, tracked, w) && w.index < |cfg.rules| && w.terminal.None?
    requires SyncRule(cfg, w.index, SyncAt(cfg, w.index).value) == Stop(CallOutcome(cfg, Call(w.index, server, options)))
    ensures Live(cfg, tracked, Speculate(w, server, options))
  {
    var f := NewFuture(w, "", server, options);
    var v := Speculate(w, server, options);
    CallsPush(w.futures, f);
    LaunchTags(w, f);
    LaunchResponses(w, f);
    AllArmedMono(cfg, w, v);
  }

  lemma SpeculateHonest(cfg: Config, w: Walk, server: string, options: QueryOptions)
    requires Honest(cfg, w.futures)
    ensures Honest(cfg, Speculate(w, server, options).futures)
  {}

  lemma RouteSound(cfg: Config, tracked: set<nat>, w: Walk, a: Action)
    requires Acting(cfg, tracked, w) && cfg.rules[w.index].action == a && a.Route?
    ensures Sound(cfg, tracked, ActRoute(cfg, w, a))
  {
    var resolved := ResolveRoute(cfg, a.server, a.options, w.options);
    if resolved.None? {
      PassSound(cfg, tracked, w);
    } else if w.armed != [] {
      if a.speculative && w.terminal.None? {
        SpeculateSound(cfg, tracked, w, a.server, resolved.value);
      } else {
        LiveSound(cfg, tracked, w, ResumeSettle(Drain));
      }
    } else {
      RoutePending(cfg, tracked, w, a, resolved.value);
    }
  }

  lemma SpeculateSound(cfg: Config, tracked: set<nat>, w: Walk, server: string, options: QueryOptions)
    requires Live(cfg, tracked, w) && Honest(cfg, w.futures) && NoneReady(w.armed) && w.index < |cfg.rules| && w.terminal.None?
    requires SyncRule(cfg, w.index, SyncAt(cfg, w.index).value) == Stop(CallOutcome(cfg, Call(w.index, server, options)))
    ensures Sound(cfg, tracked, Suspend(Speculate(w, server, options), Drain))
  {
    SpeculateLive(cfg, tracked, w, server, options);
    SpeculateHonest(cfg, w, server, options);
    LiveSound(cfg, tracked, Speculate(w, server, options), ResumeSettle(Drain));
  }

  lemma RoutePending(cfg: Config, tracked: set<nat>, w: Walk, a: Action, options: QueryOptions)
    requires Acting(cfg, tracked, w) && cfg.rules[w.index].action == a && a.Route? && w.armed == []
    requires ResolveRoute(cfg, a.server, a.options, w.options) == Some(options)
    ensures Sound(cfg, tracked, ActRoute(cfg, w, a))
  {
    StopCorrect(cfg, w.index, CallOutcome(cfg, Call(w.index, a.server, options)));
  }

  lemma RejectSound(cfg: Config, tracked: set<nat>, w: Walk, m: RejectMethod)
    requires Acting(cfg, tracked, w) && cfg.rules[w.index].action == Reject(m)
    ensures Sound(cfg, tracked, ActReject(w, m))
  {
    if w.armed != [] {
      LiveSound(cfg, tracked, w, ResumeSettle(Drain));
    } else if m.RejectReply? {
      PassSound(cfg, tracked, w);
    } else {
      var o := if m.RejectDefault? then Refused else Dropped;
      StopCorrect(cfg, w.index, o);
      FinishSound(cfg, tracked, w, o, FromRule(w.index));
    }
  }

  lemma PredefinedSound(cfg: Config, tracked: set<nat>, w: Walk, answer: Msg)
    requires Acting(cfg, tracked, w) && cfg.rules[w.index].action == Predefined(answer) && w.armed == []
    ensures Sound(cfg, tracked, Finish(w, Canned(answer), FromRule(w.index)))
  {
    StopCorrect(cfg, w.index, Canned(answer));
    FinishSound(cfg, tracked, w, Canned(answer), FromRule(w.index));
  }

  lemma ActSound(cfg: Config, tracked: set<nat>, w: Walk, r: Rule)
    requires Acting(cfg, tracked, w) && Fit(cfg.rules, tracked) && cfg.rules[w.index] == r
    requires HasBindings(r) ==> AwaitFor(w, r).None? && RuleSettled(w.futures, r)
    ensures Sound(cfg, tracked, Act(cfg, w, r))
  {
    match r.action
    case SetOptions(o) => SetOptionsSound(cfg, tracked, w, o);
    case Evaluate(_, _, _, _) => EvaluateSound(cfg, tracked, w, r.action);
    case Respond => RespondSound(cfg, tracked, w, r);
    case Route(_, _, _) => RouteSound(cfg, tracked, w, r.action);
    case Reject(m) => RejectSound(cfg, tracked, w, m);
    case Predefined(answer) =>
      if w.armed != [] { LiveSound(cfg, tracked, w, ResumeSettle(Drain)); } else { PredefinedSound(cfg, tracked, w, answer); }
  }

  /** A rule that decides nothing may match or not. */
  lemma IdleSound(cfg: Config, tracked: set<nat>, w: Walk, r: Rule)
    requires Live(cfg, tracked, w) && NoneReady(w.armed) && Honest(cfg, w.futures)
    requires w.index < |cfg.rules| && cfg.rules[w.index] == r && !IsRace(r) && !Decides(r)
    ensures Sound(cfg, tracked, MatchAndAct(cfg, w, r))
  {
    var y := SyncAt(cfg, w.index).value;
    assert Apply(w.options, NO_OPTIONS) == w.options;
    assert SyncRule(cfg, w.index, y) == Next(y);
    PassSound(cfg, tracked, w);
    LiveSound(cfg, tracked, w, ResumeSettle(Drain));
  }

  /** So may an evaluate rule that is not tracked. */
  lemma LooseSound(cfg: Config, tracked: set<nat>, w: Walk, r: Rule)
    requires Live(cfg, tracked, w) && NoneReady(w.armed)
    requires Honest(cfg, w.futures) && RefShape(w.anonymous, w.named, w.terminal, |w.futures|)
    requires w.index < |cfg.rules| && cfg.rules[w.index] == r && !IsRace(r) && Decides(r) && w.index !in tracked
    requires Fit(cfg.rules, tracked)
    ensures Sound(cfg, tracked, MatchAndAct(cfg, w, r))
  {
    var a := r.action;
    NextHasNoTerminal(cfg, tracked, w);
    LoosePass(cfg, tracked, w, a, Advance(w).walk);
    if cfg.matches(w.index, CurrentView(w)) {
      if a.server !in cfg.servers {
        var v := w.(anonymous := if a.tag == "" then None else w.anonymous);
        assert ActEvaluate(cfg, w, a) == Advance(v);
        LoosePass(cfg, tracked, w, a, Advance(v).walk);
      } else if a.speculative || w.armed == [] {
        assert ActEvaluate(cfg, w, a) == Advance(BindFuture(w, a));
        LooseLaunch(cfg, tracked, w, a);
      } else {
        assert ActEvaluate(cfg, w, a) == Suspend(w, Drain);
        LiveSound(cfg, tracked, w, ResumeSettle(Drain));
      }
    }
  }

  lemma LoosePass(cfg: Config, tracked: set<nat>, w: Walk, a: Action, v: Walk)
    requires Live(cfg, tracked, w) && NoneReady(w.armed) && Honest(cfg, w.futures) && w.terminal.None?
    requires w.index < |cfg.rules| && cfg.rules[w.index].action == a && a.Evaluate? && !IsRace(cfg.rules[w.index])
    requires w.index !in tracked && v == w.(index := w.index + 1, anonymous := v.anonymous) && (a.tag != "" ==> v.anonymous == w.anonymous)
    ensures Sound(cfg, tracked, State(v, WalkRule))
  {
    TrackLoose(cfg, tracked, w, v, a);
    AdvanceSound(cfg, tracked, w, v);
  }

  lemma LooseLaunch(cfg: Config, tracked: set<nat>, w: Walk, a: Action)
    requires Live(cfg, tracked, w) && NoneReady(w.armed) && Honest(cfg, w.futures) && w.terminal.None? && Fit(cfg.rules, tracked)
    requires RefShape(w.anonymous, w.named, w.terminal, |w.futures|)
    requires w.index < |cfg.rules| && cfg.rules[w.index].action == a && a.Evaluate? && !IsRace(cfg.rules[w.index])
    requires w.index !in tracked && a.server in cfg.servers
    ensures Sound(cfg, tracked, Advance(BindFuture(w, a)))
  {
    BindFrame(w, a);
    CallsPush(w.futures, NewFuture(w, a.tag, a.server, Apply(w.options, a.options)));
    TrackLoose(cfg, tracked, w, BindFuture(w, a), a);
    LaunchSound(cfg, tracked, w, a);
  }

  lemma MatchAndActSound(cfg: Config, tracked: set<nat>, w: Walk, r: Rule)
    requires Live(cfg, tracked, w) && NoneReady(w.armed)
    requires Honest(cfg, w.futures) && RefShape(w.anonymous, w.named, w.terminal, |w.futures|)
    requires w.index < |cfg.rules| && cfg.rules[w.index] == r && !IsRace(r)
    requires Fit(cfg.rules, tracked) && ReadsOnlyBindings(cfg)
    requires HasBindings(r) ==> AwaitFor(w, r).None? && (w.index in tracked ==> RuleSettled(w.futures, r))
    ensures Sound(cfg, tracked, MatchAndAct(cfg, w, r))
  {
    if !Decides(r) {
      IdleSound(cfg, tracked, w, r);
      return;
    }
    if w.index !in tracked {
      LooseSound(cfg, tracked, w, r);
      return;
    }
    var y := SyncAt(cfg, w.index).value;
    assert Agree(r, CurrentView(w), SyncView(cfg, y)) by {
      if HasBindings(r) { WalkAgrees(cfg, tracked, w, r); }
    }
    if cfg.matches(w.index, CurrentView(w)) {
      ActSound(cfg, tracked, w, r);
    } else {
      PassSound(cfg, tracked, w);
    }
  }

  lemma EndSound(cfg: Config, tracked: set<nat>, w: Walk)
    requires Live(cfg, tracked, w) && Honest(cfg, w.futures) && NoneReady(w.armed) && w.index == |cfg.rules|
    ensures Sound(cfg, tracked, EndOfRules(cfg, w))
  {
    if w.armed != [] {
      LiveSound(cfg, tracked, w, ResumeSettle(Drain));
    } else {
      DefaultCorrect(cfg, w.options);
    }
  }

  // ----- parking a race rule

  lemma {:induction false} PendingCovers(w: Walk, tags: seq<string>, t: string)
    requires t in tags && t in w.named && !IsDone(w, w.named[t])
    ensures w.named[t] in AllPending(w, tags)
  {
    if t != tags[0] { PendingCovers(w, tags[1..], t); }
  }

  lemma ArmedForOk(cfg: Config, tracked: set<nat>, w: Walk, v: Walk)
    requires Track(cfg, tracked, w.index, w.options, w.anonymous, w.named, Calls(w.futures))
    requires RefShape(w.anonymous, w.named, w.terminal, |w.futures|)
    requires w.index < |cfg.rules| && IsRace(cfg.rules[w.index]) && Fit(cfg.rules, tracked)
    requires v.index == w.index + 1 && v.futures == w.futures && v.named == w.named
    ensures ArmedOk(cfg, v, ArmedFor(w, cfg.rules[w.index]))
  {
    var r := cfg.rules[w.index];
    var a := ArmedFor(w, r);
    if Decides(r) { TrackedReads(cfg.rules, tracked, w.index); }
    forall t | t in r.tags && t in v.named ensures Covers(v, a, v.named[t]) {
      if !IsDone(w, w.named[t]) { PendingCovers(w, r.tags, t); }
    }
  }

  lemma RacesArm(cfg: Config, index: nat, armed: seq<Armed>, a: Armed)
    requires RacesOk(cfg, index, armed) && a.rule == index
    ensures RacesOk(cfg, index + 1, armed + [a])
  {
    forall j | 0 <= j < index + 1 && j < |cfg.rules| && IsRace(cfg.rules[j])
      ensures IsArmed(armed + [a], j) || Missed(cfg, j)
    {
      if j == index {
        assert (armed + [a])[|armed|].rule == j;
      } else if IsArmed(armed, j) {
        var p :| 0 <= p < |armed| && armed[p].rule == j;
        assert (armed + [a])[p].rule == j;
      }
    }
  }

  lemma ArmedPush(cfg: Config, v: Walk, armed: seq<Armed>, a: Armed)
    requires AllArmedOk(cfg, v.(armed := armed)) && ArmedOk(cfg, v, a) && v.armed == armed + [a]
    ensures AllArmedOk(cfg, v)
  {
    forall p | 0 <= p < |v.armed| ensures ArmedOk(cfg, v, v.armed[p]) {
      if p < |armed| { ArmedOkMono(cfg, v.(armed := armed), v, armed[p]); }
    }
  }

  lemma ArmArmed(cfg: Config, tracked: set<nat>, w: Walk)
    requires AllArmedOk(cfg, w) && Track(cfg, tracked, w.index, w.options, w.anonymous, w.named, Calls(w.futures))
    requires RefShape(w.anonymous, w.named, w.terminal, |w.futures|)
    requires w.index < |cfg.rules| && IsRace(cfg.rules[w.index]) && Fit(cfg.rules, tracked)
    ensures AllArmedOk(cfg, ArmRule(w, cfg.rules[w.index]).walk)
  {
    var r := cfg.rules[w.index];
    var v := ArmRule(w, r).walk;
    AllArmedMono(cfg, w, v.(armed := w.armed));
    ArmedForOk(cfg, tracked, w, v);
    ArmedPush(cfg, v, w.armed, ArmedFor(w, r));
  }

  lemma ArmLive(cfg: Config, tracked: set<nat>, w: Walk)
    requires Live(cfg, tracked, w) && RefShape(w.anonymous, w.named, w.terminal, |w.futures|)
    requires w.index < |cfg.rules| && IsRace(cfg.rules[w.index]) && Fit(cfg.rules, tracked)
    ensures Live(cfg, tracked, ArmRule(w, cfg.rules[w.index]).walk)
  {
    var a := ArmedFor(w, cfg.rules[w.index]);
    ArmArmed(cfg, tracked, w);
    ParkLive(cfg, tracked, w, a, ArmRule(w, cfg.rules[w.index]).walk);
  }

  lemma ParkLive(cfg: Config, tracked: set<nat>, w: Walk, a: Armed, v: Walk)
    requires Live(cfg, tracked, w) && w.index < |cfg.rules| && IsRace(cfg.rules[w.index]) && a.rule == w.index
    requires v == w.(armed := w.armed + [a], index := w.index + 1) && AllArmedOk(cfg, v)
    ensures Live(cfg, tracked, v)
  {
    NextHasNoTerminal(cfg, tracked, w);
    TrackPass(cfg, tracked, w.index, w.options, w.anonymous, w.named, Calls(w.futures));
    assert RacesOk(cfg, v.index, v.armed) by {
      RacesArm(cfg, w.index, w.armed, a);
    }
    assert TagsBefore(cfg, v.futures, v.index);
    assert TerminalOk(cfg, v.index, v.terminal, v.terminalIndex, Calls(v.futures));
  }

  /** Once parked, a rule is watched for what it was watched for before. */
  lemma ArmWatched(cfg: Config, tracked: set<nat>, w: Walk)
    requires w.index < |cfg.rules| && WatchedSettled(cfg, tracked, w, WalkTest)
    ensures var t := ArmRule(w, cfg.rules[w.index]); InWindow(t.pc) ==> WatchedSettled(cfg, tracked, t.walk, t.pc)
  {
    var v := ArmRule(w, cfg.rules[w.index]);
    forall t | t != "" && Watches(cfg, tracked, v.walk, v.pc, t) && InWindow(v.pc) ensures TagSettled(v.walk.futures, t) {
      var p :| 0 <= p < |v.walk.armed| && DecidesOn(cfg.rules, tracked, v.walk.armed[p].rule, t);
      assert Watches(cfg, tracked, w, WalkTest, t) by {
        if p < |w.armed| {
          assert v.walk.armed[p] == w.armed[p];
        }
      }
    }
  }

  lemma ArmSound(cfg: Config, tracked: set<nat>, w: Walk)
    requires Live(cfg, tracked, w) && Honest(cfg, w.futures) && WatchedSettled(cfg, tracked, w, WalkTest) && NoneReady(w.armed)
    requires RefShape(w.anonymous, w.named, w.terminal, |w.futures|)
    requires w.index < |cfg.rules| && IsRace(cfg.rules[w.index]) && Fit(cfg.rules, tracked)
    ensures Sound(cfg, tracked, ArmRule(w, cfg.rules[w.index]))
  {
    ArmLive(cfg, tracked, w);
    ArmWatched(cfg, tracked, w);
  }

  // ----- judging a parked rule

  lemma ArmedLookup(cfg: Config, tracked: set<nat>, w: Walk, a: Armed, t: string)
    requires Track(cfg, tracked, w.index, w.options, w.anonymous, w.named, Calls(w.futures)) && Fit(cfg.rules, tracked)
    requires ArmedOk(cfg, w, a) && t in cfg.rules[a.rule].tags && t != "" && Decides(cfg.rules[a.rule])
    requires TagsOk(w.futures, w.named)
    ensures Lookup(SyncAt(cfg, a.rule).value, t) == if t in w.named then Some(CallOf(w.futures[w.named[t]])) else None
  {
    TagStable(cfg, a.rule, w.index, t);
    TrackedReads(cfg.rules, tracked, a.rule);
    NamedLookup(Calls(w.futures), w.named, SyncAt(cfg, w.index).value, t);
  }

  lemma {:induction false} EmptyTagUnnamed(cfg: Config, i: nat)
    requires i <= |cfg.rules| && SyncAt(cfg, i).Some?
    ensures "" !in SyncAt(cfg, i).value.named
  {
    if i > 0 {
      ReachesBefore(cfg, i, i - 1);
      EmptyTagUnnamed(cfg, i - 1);
    }
  }

  lemma ArmedTagView(cfg: Config, tracked: set<nat>, w: Walk, a: Armed, t: string)
    requires Live(cfg, tracked, w) && Honest(cfg, w.futures) && Fit(cfg.rules, tracked) && (t != "" ==> TagSettled(w.futures, t))
    requires ArmedOk(cfg, w, a) && IsReady(w, a) && t in cfg.rules[a.rule].tags && Decides(cfg.rules[a.rule])
    ensures Get(w.responses, t) == Get(SyncView(cfg, SyncAt(cfg, a.rule).value).named, t)
    ensures TaggedAnswer(w, t) == CallAnswer(cfg, Lookup(SyncAt(cfg, a.rule).value, t))
  {
    if t == "" { EmptyTagUnnamed(cfg, a.rule); } else { ArmedLookup(cfg, tracked, w, a, t); }
    BoundView(cfg, tracked, w, SyncAt(cfg, a.rule).value, t);
  }

  lemma ArmedAgrees(cfg: Config, tracked: set<nat>, w: Walk, a: Armed)
    requires Live(cfg, tracked, w) && Honest(cfg, w.futures) && Fit(cfg.rules, tracked)
    requires ArmedOk(cfg, w, a) && IsReady(w, a) && Decides(cfg.rules[a.rule]) && RuleSettled(w.futures, cfg.rules[a.rule])
    ensures Agree(cfg.rules[a.rule], ArmedView(w, a), SyncView(cfg, SyncAt(cfg, a.rule).value))
  {
    var r, y := cfg.rules[a.rule], SyncAt(cfg, a.rule).value;
    forall t | t in r.tags ensures Get(w.responses, t) == Get(SyncView(cfg, y).named, t) {
      ArmedTagView(cfg, tracked, w, a, t);
    }
    if r.anonymous { AnonymousAnswer(cfg, w, a.anonymous, y.anonymous); }
  }

  /** What the sweep does with a ready parked rule is the rule's verdict. */
  ghost predicate VerdictOk(cfg: Config, j: nat, y: Sync, v: Verdict)
    requires j < |cfg.rules|
  {
    match v
    case Miss => RaceVerdict(cfg, j, y).None?
    case Settled(o) => RaceVerdict(cfg, j, y) == Some(o)
    case Commit(p) =>
      && p.origin == FromRace(j) && p.future.None?
      && RaceVerdict(cfg, j, y) == Some(CallOutcome(cfg, Call(j, p.transport, p.options)))
  }

  lemma JudgeCorrect(cfg: Config, tracked: set<nat>, w: Walk, a: Armed)
    requires Live(cfg, tracked, w) && Honest(cfg, w.futures)
    requires Fit(cfg.rules, tracked) && ReadsOnlyBindings(cfg)
    requires ArmedOk(cfg, w, a) && IsReady(w, a) && RuleSettled(w.futures, cfg.rules[a.rule])
    requires a.futures == [] && a.bindsAnonymous ==> a.anonymous == w.anonymous
    ensures VerdictOk(cfg, a.rule, SyncAt(cfg, a.rule).value, Judge(cfg, w, a))
  {
    var r, y := cfg.rules[a.rule], SyncAt(cfg, a.rule).value;
    if Decides(r) {
      ArmedAgrees(cfg, tracked, w, a);
    }
    if r.action.Respond? {
      if r.respondTag != "" {
        ArmedTagView(cfg, tracked, w, a, r.respondTag);
      } else {
        AnonymousAnswer(cfg, w, a.anonymous, y.anonymous);
      }
    }
  }

  lemma RacesDisarm(cfg: Config, index: nat, armed: seq<Armed>, k: nat)
    requires RacesOk(cfg, index, armed) && k < |armed| && armed[k].rule < |cfg.rules| && Missed(cfg, armed[k].rule)
    ensures RacesOk(cfg, index, Without(armed, k))
  {
    var rest := Without(armed, k);
    forall j | 0 <= j < index && j < |cfg.rules| && IsRace(cfg.rules[j])
      ensures IsArmed(rest, j) || Missed(cfg, j)
    {
      if IsArmed(armed, j) && j != armed[k].rule {
        var p :| 0 <= p < |armed| && armed[p].rule == j;
        assert rest[if p < k then p else p - 1].rule == j;
      }
    }
  }

  lemma DisarmLive(cfg: Config, tracked: set<nat>, w: Walk, k: nat)
    requires Live(cfg, tracked, w) && k < |w.armed| && Missed(cfg, w.armed[k].rule)
    ensures Live(cfg, tracked, Disarm(w, k))
  {
    var v := Disarm(w, k);
    RacesDisarm(cfg, w.index, w.armed, k);
    AllArmedMono(cfg, w, v);
  }

  lemma RaceCorrect(cfg: Config, a: Armed, w: Walk, o: Outcome)
    requires ArmedOk(cfg, w, a) && RaceVerdict(cfg, a.rule, SyncAt(cfg, a.rule).value) == Some(o)
    ensures Correct(cfg, o, FromRace(a.rule))
  {}

  /** The facts a sweep relies on when it judges the rule at `at`. */
  ghost predicate Judging(cfg: Config, tracked: set<nat>, w: Walk, at: nat) {
    && Live(cfg, tracked, w) && Honest(cfg, w.futures) && WatchedSettled(cfg, tracked, w, WalkSweep(at))
    && at < |w.armed| && ArmedOk(cfg, w, w.armed[at])
    && VerdictOk(cfg, w.armed[at].rule, SyncAt(cfg, w.armed[at].rule).value, Judge(cfg, w, w.armed[at]))
  }

  lemma SettledSound(cfg: Config, tracked: set<nat>, w: Walk, at: nat, o: Outcome)
    requires Judging(cfg, tracked, w, at) && Judge(cfg, w, w.armed[at]) == Settled(o)
    ensures Sound(cfg, tracked, Finish(Disarm(w, at), o, FromRace(w.armed[at].rule)))
  {
    RaceCorrect(cfg, w.armed[at], w, o);
    FinishSound(cfg, tracked, Disarm(w, at), o, FromRace(w.armed[at].rule));
  }

  lemma CommitPending(cfg: Config, tracked: set<nat>, w: Walk, at: nat, p: Pending)
    requires Judging(cfg, tracked, w, at) && Judge(cfg, w, w.armed[at]) == Commit(p)
    ensures PendingOk(cfg, w.futures, p)
  {
    RaceCorrect(cfg, w.armed[at], w, CallOutcome(cfg, Call(w.armed[at].rule, p.transport, p.options)));
  }

  lemma MissedLive(cfg: Config, tracked: set<nat>, w: Walk, at: nat)
    requires Judging(cfg, tracked, w, at) && Judge(cfg, w, w.armed[at]).Miss?
    ensures Live(cfg, tracked, Disarm(w, at))
  {
    DisarmLive(cfg, tracked, w, at);
  }

  lemma ReadyWithout(armed: seq<Armed>, anonymous: Option<nat>, at: nat)
    requires at < |armed| && ReadyAhead(armed, anonymous, at)
    ensures ReadyAhead(Without(armed, at), anonymous, at)
  {}

  lemma NoneReadyWithout(armed: seq<Armed>, at: nat)
    requires at < |armed| && NoneReady(armed)
    ensures NoneReady(Without(armed, at))
  {}

  lemma DisarmWatched(cfg: Config, tracked: set<nat>, w: Walk, at: nat, pc: Control, qc: Control)
    requires at < |w.armed| && WatchedSettled(cfg, tracked, w, pc) && !qc.WalkTest?
    ensures WatchedSettled(cfg, tracked, Disarm(w, at), qc)
  {
    var v := Disarm(w, at);
    forall t | t != "" && Watches(cfg, tracked, v, qc, t) ensures TagSettled(v.futures, t) {
      var p :| 0 <= p < |v.armed| && DecidesOn(cfg.rules, tracked, v.armed[p].rule, t);
      assert v.armed[p] == w.armed[if p < at then p else p + 1];
      assert Watches(cfg, tracked, w, pc, t);
    }
  }

  lemma WalkMissSound(cfg: Config, tracked: set<nat>, w: Walk, at: nat)
    requires Judging(cfg, tracked, w, at) && Judge(cfg, w, w.armed[at]).Miss? && ReadyAhead(w.armed, w.anonymous, at)
    ensures Sound(cfg, tracked, State(Disarm(w, at), WalkSweep(at)))
  {
    MissedLive(cfg, tracked, w, at);
    DisarmWatched(cfg, tracked, w, at, WalkSweep(at), WalkSweep(at));
    ReadyWithout(w.armed, w.anonymous, at);
  }

  lemma ResumeMissSound(cfg: Config, tracked: set<nat>, w: Walk, u: Suspension, at: nat)
    requires Judging(cfg, tracked, w, at) && Judge(cfg, w, w.armed[at]).Miss? && NoneReady(w.armed) && !u.Ready?
    ensures Sound(cfg, tracked, State(Disarm(w, at), ResumeSweep(u, at)))
  {
    MissedLive(cfg, tracked, w, at);
    DisarmWatched(cfg, tracked, w, at, WalkSweep(at), ResumeSweep(u, at));
    NoneReadyWithout(w.armed, at);
  }

  lemma HandOverSound(cfg: Config, tracked: set<nat>, w: Walk, at: nat, p: Pending)
    requires Judging(cfg, tracked, w, at) && Judge(cfg, w, w.armed[at]) == Commit(p)
    ensures Sound(cfg, tracked, Suspend(w.(armed := []), Ready(p)))
  {
    CommitPending(cfg, tracked, w, at, p);
  }

  lemma WalkJudge(cfg: Config, tracked: set<nat>, w: Walk, at: nat)
    requires Live(cfg, tracked, w) && Honest(cfg, w.futures) && WatchedSettled(cfg, tracked, w, WalkSweep(at))
    requires Fit(cfg.rules, tracked) && ReadsOnlyBindings(cfg) && at < |w.armed| && IsReady(w, w.armed[at])
    requires w.armed[at].futures == [] && w.armed[at].bindsAnonymous ==> w.armed[at].anonymous == w.anonymous
    ensures Judging(cfg, tracked, w, at)
  {
    assert RuleSettled(w.futures, cfg.rules[w.armed[at].rule]) by {
      forall t | t in cfg.rules[w.armed[at].rule].tags && t != "" && Decides(cfg.rules[w.armed[at].rule])
        ensures TagSettled(w.futures, t)
      {
        assert DecidesOn(cfg.rules, tracked, w.armed[at].rule, t);
        assert Watches(cfg, tracked, w, WalkSweep(at), t);
      }
    }
    JudgeCorrect(cfg, tracked, w, w.armed[at]);
  }

  lemma WalkSweepSound(cfg: Config, tracked: set<nat>, w: Walk, at: nat)
    requires Sound(cfg, tracked, State(w, WalkSweep(at))) && Fit(cfg.rules, tracked) && ReadsOnlyBindings(cfg)
    ensures Sound(cfg, tracked, WalkSweepStep(cfg, w, at))
  {
    if at >= |w.armed| {
      assert NoneReady(w.armed);
    } else if !IsReady(w, w.armed[at]) {
      assert ReadyAhead(w.armed, w.anonymous, at + 1);
    } else {
      WalkJudge(cfg, tracked, w, at);
      WalkJudged(cfg, tracked, w, at);
    }
  }

  lemma WalkJudged(cfg: Config, tracked: set<nat>, w: Walk, at: nat)
    requires Judging(cfg, tracked, w, at) && IsReady(w, w.armed[at]) && ReadyAhead(w.armed, w.anonymous, at)
    ensures Sound(cfg, tracked, WalkSweepStep(cfg, w, at))
  {
    match Judge(cfg, w, w.armed[at])
    case Miss => WalkMissSound(cfg, tracked, w, at);
    case Settled(o) => SettledSound(cfg, tracked, w, at, o);
    case Commit(p) => HandOverSound(cfg, tracked, w, at, p);
  }

  lemma FinishPendingSound(cfg: Config, tracked: set<nat>, w: Walk, p: Pending)
    requires Honest(cfg, w.futures) && PendingOk(cfg, w.futures, p)
    ensures Sound(cfg, tracked, FinishPending(cfg, w, p))
  {
    CancelHonest(cfg, w.futures, p.future);
    if p.future.None? {
      FinishSound(cfg, tracked, w, CallOutcome(cfg, Call(OriginIndex(cfg, p.origin), p.transport, p.options)), p.origin);
    }
  }

  lemma ResumeSweepSound(cfg: Config, tracked: set<nat>, w: Walk, u: Suspension, at: nat)
    requires Sound(cfg, tracked, State(w, ResumeSweep(u, at))) && Fit(cfg.rules, tracked) && ReadsOnlyBindings(cfg)
    ensures Sound(cfg, tracked, ResumeSweepStep(cfg, w, u, at))
  {
    if at < |w.armed| && IsReady(w, w.armed[at]) {
      WalkJudge(cfg, tracked, w, at);
      ResumeJudged(cfg, tracked, w, u, at);
    } else if PendingOf(ResumeSweep(u, at)).None? {
      WindowMoves(cfg, tracked, w, ResumeSweep(u, at), ResumeSweep(u, at + 1));
    }
  }

  lemma WindowMoves(cfg: Config, tracked: set<nat>, w: Walk, pc: Control, qc: Control)
    requires WatchedSettled(cfg, tracked, w, pc) && !qc.WalkTest?
    ensures WatchedSettled(cfg, tracked, w, qc)
  {
    assert forall t :: Watches(cfg, tracked, w, qc, t) ==> Watches(cfg, tracked, w, pc, t);
  }

  lemma ResumeJudged(cfg: Config, tracked: set<nat>, w: Walk, u: Suspension, at: nat)
    requires Judging(cfg, tracked, w, at) && IsReady(w, w.armed[at]) && NoneReady(w.armed) && !u.Ready?
    ensures Sound(cfg, tracked, ResumeSweepStep(cfg, w, u, at))
  {
    match Judge(cfg, w, w.armed[at])
    case Miss => ResumeMissSound(cfg, tracked, w, u, at);
    case Settled(o) => SettledSound(cfg, tracked, w, at, o);
    case Commit(p) =>
      CommitPending(cfg, tracked, w, at, p);
      FinishPendingSound(cfg, tracked, Disarm(w, at), p);
  }

  // ----- every step of the machine

  lemma WalkRuleSound(cfg: Config, tracked: set<nat>, w: Walk)
    requires Sound(cfg, tracked, State(w, WalkRule)) && Base(cfg, w) && Fit(cfg.rules, tracked) && ReadsOnlyBindings(cfg)
    ensures Sound(cfg, tracked, WalkRuleStep(cfg, w))
  {
    if w.index >= |cfg.rules| {
      EndSound(cfg, tracked, w);
    } else if HasBindings(cfg.rules[w.index]) {
      SettleLive(cfg, tracked, w);
      SettleHonest(cfg, w);
      SettleProgress(w);
    } else {
      MatchAndActSound(cfg, tracked, w, cfg.rules[w.index]);
    }
  }

  lemma WalkTestSound(cfg: Config, tracked: set<nat>, w: Walk)
    requires Sound(cfg, tracked, State(w, WalkTest)) && Base(cfg, w) && Fit(cfg.rules, tracked) && ReadsOnlyBindings(cfg)
    requires w.index < |cfg.rules| ==> HasBindings(cfg.rules[w.index])
    ensures Sound(cfg, tracked, WalkTestStep(cfg, w))
  {
    if w.index >= |cfg.rules| {
      EndSound(cfg, tracked, w);
    } else {
      var r := cfg.rules[w.index];
      if r.race {
        ArmSound(cfg, tracked, w);
      } else if AwaitFor(w, r).Some? {
        LiveSound(cfg, tracked, w, ResumeSettle(Await(AwaitFor(w, r).value)));
      } else {
        assert w.index in tracked ==> RuleSettled(w.futures, r) by {
          forall t | t in r.tags && t != "" && Decides(r) && w.index in tracked ensures TagSettled(w.futures, t) {
            assert Watches(cfg, tracked, w, WalkTest, t);
          }
        }
        MatchAndActSound(cfg, tracked, w, r);
      }
    }
  }

  lemma ResumeSettleSound(cfg: Config, tracked: set<nat>, w: Walk, u: Suspension)
    requires Sound(cfg, tracked, State(w, ResumeSettle(u)))
    ensures Sound(cfg, tracked, State(Settle(w), ResumeSweep(u, 0)))
  {
    SettleHonest(cfg, w);
    SettleProgress(w);
    if u.Ready? {
      SettlePending(cfg, w, u.pending);
    } else {
      SettleLive(cfg, tracked, w);
    }
  }

  lemma ResumeCheckSound(cfg: Config, tracked: set<nat>, w: Walk, u: Suspension)
    requires Sound(cfg, tracked, State(w, ResumeCheck(u)))
    ensures Sound(cfg, tracked, ResumeCheckStep(cfg, w, u))
  {
    if u.Ready? { FinishPendingSound(cfg, tracked, w, u.pending); }
  }

  lemma WakeSound(cfg: Config, tracked: set<nat>, w: Walk, u: Suspension)
    requires Sound(cfg, tracked, State(w, Blocked(u))) && !u.Ready?
    ensures Sound(cfg, tracked, State(w.(wake := false), ResumeSettle(u)))
  {
    ProgressLive(cfg, tracked, w, w.(wake := false));
  }

  lemma WaitReplySound(cfg: Config, tracked: set<nat>, w: Walk, p: Pending)
    requires Sound(cfg, tracked, State(w, WaitReply(p))) && p.future.Some? && IsDone(w, p.future.value)
    ensures Sound(cfg, tracked, WaitReplyStep(w, p))
  {
    var f := w.futures[p.future.value];
    assert f.reply == CallReply(cfg, CallOf(f));
    FinishSound(cfg, tracked, w, WaitReplyStep(w, p).pc.outcome, p.origin);
  }

  /** In `WalkTest` the current rule reads a response. */
  ghost predicate TestsBindings(cfg: Config, s: State) {
    s.pc.WalkTest? && s.walk.index < |cfg.rules| ==> HasBindings(cfg.rules[s.walk.index])
  }

  lemma MainSound(cfg: Config, tracked: set<nat>, s: State)
    requires Sound(cfg, tracked, s) && Shape(cfg, s) && TestsBindings(cfg, s) && MainEnabled(s)
    requires Fit(cfg.rules, tracked) && ReadsOnlyBindings(cfg)
    ensures Sound(cfg, tracked, MainStep(cfg, s))
  {
    var w := s.walk;
    match s.pc
    case WalkRule => WalkRuleSound(cfg, tracked, w);
    case WalkTest => WalkTestSound(cfg, tracked, w);
    case WalkSweep(at) => WalkSweepSound(cfg, tracked, w, at);
    case ResumeSettle(u) => ResumeSettleSound(cfg, tracked, w, u);
    case ResumeSweep(u, at) => ResumeSweepSound(cfg, tracked, w, u, at);
    case ResumeCheck(u) => ResumeCheckSound(cfg, tracked, w, u);
    case Blocked(u) => WakeSound(cfg, tracked, w, u);
    case WaitReply(p) => WaitReplySound(cfg, tracked, w, p);
  }

  lemma MainTests(cfg: Config, s: State)
    requires MainEnabled(s)
    ensures TestsBindings(cfg, MainStep(cfg, s))
  {
    if s.pc.WalkRule? { SettleProgress(s.walk); }
  }

  lemma ResolveProgress(w: Walk, k: nat, reply: Reply)
    requires k < |w.futures| && w.futures[k].phase == Running
    ensures Progress(w, ResolveFuture(w, k, reply))
  {}

  lemma NotifyProgress(w: Walk, k: nat)
    requires k < |w.futures| && w.futures[k].phase == Resolved
    ensures Progress(w, NotifyFuture(w, k))
  {}

  lemma ResolveLive(cfg: Config, tracked: set<nat>, w: Walk, k: nat, reply: Reply)
    requires Live(cfg, tracked, w) && k < |w.futures| && w.futures[k].phase == Running
    ensures Live(cfg, tracked, ResolveFuture(w, k, reply))
  {
    var v := ResolveFuture(w, k, reply);
    forall t ensures ResponseOk(v.futures, v.named, v.responses, v.transports, t) {
      assert ResponseOk(w.futures, w.named, w.responses, w.transports, t);
    }
    ResolveProgress(w, k, reply);
    ProgressLive(cfg, tracked, w, v);
  }

  lemma NotifyLive(cfg: Config, tracked: set<nat>, w: Walk, k: nat)
    requires Live(cfg, tracked, w) && k < |w.futures| && w.futures[k].phase == Resolved
    ensures Live(cfg, tracked, NotifyFuture(w, k))
  {
    var v := NotifyFuture(w, k);
    forall t ensures ResponseOk(v.futures, v.named, v.responses, v.transports, t) {
      assert ResponseOk(w.futures, w.named, w.responses, w.transports, t);
    }
    NotifyProgress(w, k);
    ProgressLive(cfg, tracked, w, v);
  }

  lemma ResolveParked(cfg: Config, tracked: set<nat>, w: Walk, pc: Control, k: nat, reply: Reply)
    requires ParkedOk(cfg, tracked, w, pc) && k < |w.futures|
    requires InWindow(pc) && w.futures[k].tag != "" ==> !Watches(cfg, tracked, w, pc, w.futures[k].tag)
    ensures ParkedOk(cfg, tracked, ResolveFuture(w, k, reply), pc)
  {
    var v := ResolveFuture(w, k, reply);
    forall t | t != "" && Watches(cfg, tracked, v, pc, t) && InWindow(pc) ensures TagSettled(v.futures, t) {
      assert Watches(cfg, tracked, w, pc, t);
    }
  }

  lemma NotifyParked(cfg: Config, tracked: set<nat>, w: Walk, pc: Control, k: nat)
    requires ParkedOk(cfg, tracked, w, pc) && k < |w.futures| && w.futures[k].phase == Resolved
    ensures ParkedOk(cfg, tracked, NotifyFuture(w, k), pc)
  {
    var v := NotifyFuture(w, k);
    forall t | t != "" && Watches(cfg, tracked, v, pc, t) && InWindow(pc) ensures TagSettled(v.futures, t) {
      assert Watches(cfg, tracked, w, pc, t);
    }
  }

  lemma ResolvePending(cfg: Config, w: Walk, p: Pending, k: nat, reply: Reply)
    requires PendingOk(cfg, w.futures, p) && k < |w.futures|
    ensures PendingOk(cfg, ResolveFuture(w, k, reply).futures, p) && ResolveFuture(w, k, reply).armed == w.armed
  {}

  lemma NotifyPending(cfg: Config, w: Walk, p: Pending, k: nat)
    requires PendingOk(cfg, w.futures, p) && k < |w.futures|
    ensures PendingOk(cfg, NotifyFuture(w, k).futures, p) && NotifyFuture(w, k).armed == w.armed
  {}

  lemma ResolveSound(cfg: Config, tracked: set<nat>, s: State, k: nat, reply: Reply)
    requires Sound(cfg, tracked, s) && k < |s.walk.futures| && s.walk.futures[k].phase == Running
    requires ReplyAllowed(cfg, s.walk.futures[k], reply)
    requires TimelyStep(cfg, tracked, s, Resolve(k, reply))
    ensures Sound(cfg, tracked, State(ResolveFuture(s.walk, k, reply), s.pc))
  {
    if s.pc.Finished? {
    } else if PendingOf(s.pc).Some? {
      ResolvePending(cfg, s.walk, PendingOf(s.pc).value, k, reply);
    } else {
      ResolveLive(cfg, tracked, s.walk, k, reply);
      ResolveParked(cfg, tracked, s.walk, s.pc, k, reply);
    }
    ResolveHonest(cfg, s.walk.futures, k, reply);
  }

  lemma ResolveHonest(cfg: Config, fs: seq<Future>, k: nat, reply: Reply)
    requires Honest(cfg, fs) && k < |fs| && ReplyAllowed(cfg, fs[k], reply)
    ensures Honest(cfg, fs[k := fs[k].(phase := Resolved, reply := reply)])
  {}

  lemma NotifySound(cfg: Config, tracked: set<nat>, s: State, k: nat)
    requires Sound(cfg, tracked, s) && k < |s.walk.futures| && s.walk.futures[k].phase == Resolved
    ensures Sound(cfg, tracked, State(NotifyFuture(s.walk, k), s.pc))
  {
    if s.pc.Finished? {
    } else if PendingOf(s.pc).Some? {
      NotifyPending(cfg, s.walk, PendingOf(s.pc).value, k);
    } else {
      NotifyLive(cfg, tracked, s.walk, k);
      NotifyParked(cfg, tracked, s.walk, s.pc, k);
    }
  }

  lemma StepSound(cfg: Config, tracked: set<nat>, s: State, l: Label, t: State)
    requires Sound(cfg, tracked, s) && Shape(cfg, s) && TestsBindings(cfg, s)
    requires Fit(cfg.rules, tracked) && ReadsOnlyBindings(cfg)
    requires Step(cfg, s, l, t) && TimelyStep(cfg, tracked, s, l)
    ensures Sound(cfg, tracked, t) && TestsBindings(cfg, t)
  {
    match l
    case Main =>
      MainSound(cfg, tracked, s);
      MainTests(cfg, s);
    case Resolve(k, reply) => ResolveSound(cfg, tracked, s, k, reply);
    case Notify(k) => NotifySound(cfg, tracked, s, k);
    case GiveUp => FinishSound(cfg, tracked, s.walk, Outcome.Cancelled, Origin.GaveUp);
  }

  lemma StartSound(cfg: Config, tracked: set<nat>, s: State)
    requires s == Init(cfg)
    ensures Sound(cfg, tracked, s) && TestsBindings(cfg, s)
  {
    InitSound(cfg, tracked);
  }

  lemma StepSoundAt(cfg: Config, tracked: set<nat>, states: seq<State>, labels: seq<Label>, i: nat)
    requires Run(cfg, states, labels) && Timely(cfg, tracked, states, labels) && i < |labels|
    requires Fit(cfg.rules, tracked) && ReadsOnlyBindings(cfg)
    requires Sound(cfg, tracked, states[i]) && TestsBindings(cfg, states[i])
    ensures Sound(cfg, tracked, states[i + 1]) && TestsBindings(cfg, states[i + 1])
  {
    RunShape(cfg, states, labels, i);
    assert TimelyStep(cfg, tracked, states[i], labels[i]);
    StepSound(cfg, tracked, states[i], labels[i], states[i + 1]);
  }

  lemma {:induction false} RunSound(cfg: Config, tracked: set<nat>, states: seq<State>, labels: seq<Label>, i: nat)
    requires Run(cfg, states, labels) && Timely(cfg, tracked, states, labels) && i < |states|
    requires Fit(cfg.rules, tracked) && ReadsOnlyBindings(cfg)
    ensures Sound(cfg, tracked, states[i]) && TestsBindings(cfg, states[i])
  {
    if i == 0 {
      StartSound(cfg, tracked, states[0]);
    } else {
      RunSound(cfg, tracked, states, labels, i - 1);
      StepSoundAt(cfg, tracked, states, labels, i - 1);
    }
  }

  // ----- the theorems

  /** Every timely run answers correctly: with the synchronous meaning if no race
      rule that was passed has an answer, or with the verdict of a race rule. */
  lemma RunCorrect(cfg: Config, tracked: set<nat>, states: seq<State>, labels: seq<Label>, i: nat)
    requires Run(cfg, states, labels) && Timely(cfg, tracked, states, labels) && i < |states| && states[i].pc.Finished?
    requires Fit(cfg.rules, tracked) && ReadsOnlyBindings(cfg)
    ensures Correct(cfg, states[i].pc.outcome, states[i].pc.origin)
  {
    RunSound(cfg, tracked, states, labels, i);
  }

  /** Without race rules the concurrent walk is the synchronous interpreter. */
  lemma RunIsSynchronous(cfg: Config, tracked: set<nat>, states: seq<State>, labels: seq<Label>, i: nat)
    requires Run(cfg, states, labels) && Timely(cfg, tracked, states, labels) && i < |states| && states[i].pc.Finished?
    requires Fit(cfg.rules, tracked) && ReadsOnlyBindings(cfg)
    requires forall j :: 0 <= j < |cfg.rules| ==> !IsRace(cfg.rules[j])
    requires !states[i].pc.origin.GaveUp?
    ensures (states[i].pc.outcome, states[i].pc.origin) == Meaning(cfg)
  {
    RunCorrect(cfg, tracked, states, labels, i);
    CorrectWithoutRaces(cfg, states[i].pc.outcome, states[i].pc.origin);
  }
}
