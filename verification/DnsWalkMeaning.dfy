/**
 The meaning of a DNS rule list: an interpreter that finishes every exchange
 before it looks at the next rule, and what a race rule answers from the
 responses known when it is reached.
 */
module DnsWalkMeaning {
  import opened Common
  import opened DnsWalk

  /** An exchange that a rule issues. */
  datatype Call = Call(rule: nat, transport: string, options: QueryOptions)

  function CallReply(cfg: Config, c: Call): Reply {
    cfg.reply(c.rule, c.transport, c.options)
  }

  function CallView(cfg: Config, c: Call): Option<Msg> {
    Visible(CallReply(cfg, c))
  }

  /** What the interpreter knows on reaching a rule. */
  datatype Sync = Sync(options: QueryOptions, anonymous: Option<Call>, named: map<string, Call>)

  function SyncView(cfg: Config, y: Sync): View {
    View(if y.anonymous.Some? then CallView(cfg, y.anonymous.value) else None,
         map t | t in y.named :: CallView(cfg, y.named[t]))
  }

  function CallAnswer(cfg: Config, c: Option<Call>): Outcome {
    if c.None? || CallView(cfg, c.value).None? then MissingResponse
    else Answer(CallView(cfg, c.value).value, Some(c.value.transport))
  }

  function Lookup(y: Sync, tag: string): Option<Call> {
    if tag in y.named then Some(y.named[tag]) else None
  }

  function CallOutcome(cfg: Config, c: Call): Outcome {
    Query(c.transport, c.options, CallReply(cfg, c))
  }

  datatype SyncStep = Next(sync: Sync) | Stop(outcome: Outcome)

  function SyncEvaluate(cfg: Config, i: nat, y: Sync, a: Action): Sync
    requires a.Evaluate?
  {
    if a.server !in cfg.servers then
      if a.tag == "" then y.(anonymous := None) else y
    else
      var c := Call(i, a.server, Apply(y.options, a.options));
      if a.tag == "" then y.(anonymous := Some(c)) else y.(named := y.named[a.tag := c])
  }

  function SyncAct(cfg: Config, i: nat, y: Sync, r: Rule): SyncStep {
    match r.action
    case SetOptions(o) => Next(y.(options := Apply(y.options, o)))
    case Evaluate(_, _, _, _) => Next(SyncEvaluate(cfg, i, y, r.action))
    case Respond => Stop(CallAnswer(cfg, if r.respondTag != "" then Lookup(y, r.respondTag) else y.anonymous))
    case Route(server, _, o) =>
      (match ResolveRoute(cfg, server, o, y.options)
       case None => Next(y)
       case Some(options) => Stop(CallOutcome(cfg, Call(i, server, options))))
    case Reject(m) =>
      (match m
       case RejectDefault => Stop(Refused)
       case RejectDrop => Stop(Dropped)
       case RejectReply => Next(y))
    case Predefined(answer) => Stop(Canned(answer))
  }

  /** One rule. A race rule never changes what later rules see. */
  function SyncRule(cfg: Config, i: nat, y: Sync): SyncStep
    requires i < |cfg.rules|
  {
    var r := cfg.rules[i];
    if IsRace(r) || !cfg.matches(i, SyncView(cfg, y)) then Next(y) else SyncAct(cfg, i, y, r)
  }

  /** The answer of the rules from `i` on, and where it comes from. */
  function MeaningFrom(cfg: Config, i: nat, y: Sync): (Outcome, Origin)
    requires i <= |cfg.rules|
    decreases |cfg.rules| - i
  {
    if i == |cfg.rules| then (CallOutcome(cfg, Call(i, cfg.fallback, y.options)), FromDefault)
    else
      match SyncRule(cfg, i, y)
      case Next(y') => MeaningFrom(cfg, i + 1, y')
      case Stop(o) => (o, FromRule(i))
  }

  function SyncInit(cfg: Config): Sync {
    Sync(cfg.initial, None, map[])
  }

  /** The synchronous interpreter on the whole list. */
  function Meaning(cfg: Config): (Outcome, Origin) {
    MeaningFrom(cfg, 0, SyncInit(cfg))
  }

  /** What the interpreter knows when it reaches rule `i`, if it gets there. */
  function SyncAt(cfg: Config, i: nat): Option<Sync>
    requires i <= |cfg.rules|
  {
    if i == 0 then Some(SyncInit(cfg))
    else
      match SyncAt(cfg, i - 1)
      case None => None
      case Some(y) =>
        match SyncRule(cfg, i - 1, y)
        case Next(y') => Some(y')
        case Stop(_) => None
  }

  /** What a race rule answers on the responses it was reached with. */
  function RaceVerdict(cfg: Config, j: nat, y: Sync): Option<Outcome>
    requires j < |cfg.rules|
  {
    var r := cfg.rules[j];
    if !cfg.matches(j, SyncView(cfg, y)) then None
    else
      match r.action
      case Respond => Some(CallAnswer(cfg, if r.respondTag != "" then Lookup(y, r.respondTag) else y.anonymous))
      case Route(server, _, o) =>
        (match ResolveRoute(cfg, server, o, y.options)
         case None => None
         case Some(options) => Some(CallOutcome(cfg, Call(j, server, options))))
      case Reject(m) =>
        (match m
         case RejectDefault => Some(Refused)
         case RejectDrop => Some(Dropped)
         case RejectReply => None)
      case Predefined(answer) => Some(Canned(answer))
      case _ => None
  }

  ghost predicate RacesMissBefore(cfg: Config, i: nat)
    requires i <= |cfg.rules|
  {
    forall j :: 0 <= j < i && IsRace(cfg.rules[j]) ==>
      SyncAt(cfg, j).Some? && RaceVerdict(cfg, j, SyncAt(cfg, j).value).None?
  }

  /**
   The answers a request may give. The ordinary walk answers with the
   synchronous meaning, and only if every race rule it passed has nothing to
   say; a race rule answers with its own verdict, provided the walk reaches it.
   */
  ghost predicate Correct(cfg: Config, outcome: Outcome, origin: Origin) {
    match origin
    case FromRule(i) => i < |cfg.rules| && Meaning(cfg) == (outcome, origin) && RacesMissBefore(cfg, i)
    case FromDefault => Meaning(cfg) == (outcome, origin) && RacesMissBefore(cfg, |cfg.rules|)
    case FromRace(j) =>
      && j < |cfg.rules| && IsRace(cfg.rules[j])
      && SyncAt(cfg, j).Some? && RaceVerdict(cfg, j, SyncAt(cfg, j).value) == Some(outcome)
    case GaveUp => true
  }

  // ----- what the rule lists that reach the walk are like

  predicate Defines(r: Rule, tag: string) {
    r.action.Evaluate? && r.action.tag == tag && tag != ""
  }

  /** An evaluate tag is defined once, before every rule that reads it, and a
      respond rule reads the response it returns. */
  ghost predicate Accepted(rules: seq<Rule>) {
    && (forall d, e, t :: 0 <= d < e < |rules| && Defines(rules[d], t) ==> !Defines(rules[e], t))
    && (forall d, j, t :: 0 <= d < |rules| && 0 <= j < |rules| && t in rules[j].tags && Defines(rules[d], t) ==> d < j)
    && (forall j :: 0 <= j < |rules| && rules[j].action.Respond? ==>
          if rules[j].respondTag != "" then rules[j].respondTag in rules[j].tags else rules[j].tags == [])
  }

  // ----- sets of rules to keep track of

  function AllRules(rules: seq<Rule>): set<nat> {
    set i {:trigger rules[i]} | 0 <= i < |rules|
  }

  /** What a rule without tags reads: a respond rule returns the anonymous
      response also when it does not match on it. */
  predicate ReadsAnonymous(r: Rule) {
    r.anonymous || (r.action.Respond? && r.respondTag == "")
  }

  /** The ordinary rule asks for a response that the other one reads. */
  predicate Feeds(a: Rule, b: Rule) {
    && a.action.Evaluate? && !IsRace(a)
    && if a.action.tag == "" then ReadsAnonymous(b) else a.action.tag in b.tags
  }

  /** The set holds every rule that ends the request or changes its options, and
      whatever its deciding rules are fed by. */
  ghost predicate Closed(rules: seq<Rule>, tracked: set<nat>) {
    && (forall j :: 0 <= j < |rules| && Decides(rules[j]) && !rules[j].action.Evaluate? ==> j in tracked)
    && (forall e, k :: 0 <= e < k < |rules| && k in tracked && Decides(rules[k]) && Feeds(rules[e], rules[k]) ==> e in tracked)
  }

  ghost predicate Fit(rules: seq<Rule>, tracked: set<nat>) {
    Accepted(rules) && Closed(rules, tracked)
  }

  lemma AllIsClosed(rules: seq<Rule>)
    ensures Closed(rules, AllRules(rules))
  {}

  ghost predicate Agree(r: Rule, v: View, w: View) {
    && (r.anonymous ==> v.anonymous == w.anonymous)
    && (forall t :: t in r.tags ==> Get(v.named, t) == Get(w.named, t))
  }

  /** The matcher looks only at the responses a rule binds. */
  ghost predicate ReadsOnlyBindings(cfg: Config) {
    forall i, v, w :: 0 <= i < |cfg.rules| && Agree(cfg.rules[i], v, w) ==> cfg.matches(i, v) == cfg.matches(i, w)
  }

  // ----- facts about the interpreter

  lemma {:induction false} ReachesBefore(cfg: Config, i: nat, j: nat)
    requires j <= i <= |cfg.rules| && SyncAt(cfg, i).Some?
    ensures SyncAt(cfg, j).Some?
  {
    if j < i { ReachesBefore(cfg, i - 1, j); }
  }

  lemma {:induction false} MeaningFromHere(cfg: Config, i: nat)
    requires i <= |cfg.rules| && SyncAt(cfg, i).Some?
    ensures Meaning(cfg) == MeaningFrom(cfg, i, SyncAt(cfg, i).value)
  {
    if i > 0 {
      ReachesBefore(cfg, i, i - 1);
      MeaningFromHere(cfg, i - 1);
    }
  }

  lemma SyncRuleNamed(cfg: Config, i: nat, y: Sync, tag: string)
    requires i < |cfg.rules| && SyncRule(cfg, i, y).Next? && !Defines(cfg.rules[i], tag)
    ensures tag != "" ==> Lookup(SyncRule(cfg, i, y).sync, tag) == Lookup(y, tag)
  {}

  /** A tag that no rule from `j` on defines keeps its meaning. */
  lemma {:induction false} TagStable(cfg: Config, j: nat, i: nat, tag: string)
    requires j <= i <= |cfg.rules| && SyncAt(cfg, i).Some? && SyncAt(cfg, j).Some? && tag != ""
    requires forall d :: j <= d < i ==> !Defines(cfg.rules[d], tag)
    ensures Lookup(SyncAt(cfg, i).value, tag) == Lookup(SyncAt(cfg, j).value, tag)
  {
    if j < i {
      ReachesBefore(cfg, i, i - 1);
      TagStable(cfg, j, i - 1, tag);
      SyncRuleNamed(cfg, i - 1, SyncAt(cfg, i - 1).value, tag);
    }
  }

  /** With no race rule in the list, only the synchronous meaning is correct. */
  lemma CorrectWithoutRaces(cfg: Config, outcome: Outcome, origin: Origin)
    requires forall j :: 0 <= j < |cfg.rules| ==> !IsRace(cfg.rules[j])
    requires Correct(cfg, outcome, origin) && !origin.GaveUp?
    ensures (outcome, origin) == Meaning(cfg)
  {}

  // ----- the options of a query

  /** The rules of `rules[..i]` that refine the options and were matched. */
  function MatchedOptions(cfg: Config, i: nat): seq<RouteOptions>
    requires i <= |cfg.rules| && SyncAt(cfg, i).Some?
    decreases i
  {
    if i == 0 then []
    else
      ReachesBefore(cfg, i, i - 1);
      var y := SyncAt(cfg, i - 1).value;
      var r := cfg.rules[i - 1];
      MatchedOptions(cfg, i - 1) +
      if RefinesOptions(cfg, i - 1, y) then [r.action.options] else []
  }

  function Fold(o: QueryOptions, rs: seq<RouteOptions>): QueryOptions {
    if rs == [] then o else Apply(Fold(o, rs[..|rs| - 1]), rs[|rs| - 1])
  }

  lemma FoldPush(o: QueryOptions, rs: seq<RouteOptions>, r: RouteOptions)
    ensures Fold(o, rs + [r]) == Apply(Fold(o, rs), r)
  {
    assert (rs + [r])[..|rs|] == rs;
  }

  predicate RefinesOptions(cfg: Config, i: nat, y: Sync)
    requires i < |cfg.rules|
  {
    !IsRace(cfg.rules[i]) && cfg.rules[i].action.SetOptions? && cfg.matches(i, SyncView(cfg, y))
  }

  lemma SyncRuleOptions(cfg: Config, i: nat, y: Sync)
    requires i < |cfg.rules| && SyncRule(cfg, i, y).Next?
    ensures SyncRule(cfg, i, y).sync.options ==
            if RefinesOptions(cfg, i, y) then Apply(y.options, cfg.rules[i].action.options) else y.options
  {}

  /** The options in force at a rule are the fold of the matched option rules. */
  lemma {:induction false} OptionsAreFold(cfg: Config, i: nat)
    requires i <= |cfg.rules| && SyncAt(cfg, i).Some?
    ensures SyncAt(cfg, i).value.options == Fold(cfg.initial, MatchedOptions(cfg, i))
  {
    if i > 0 {
      ReachesBefore(cfg, i, i - 1);
      OptionsAreFold(cfg, i - 1);
      SyncRuleOptions(cfg, i - 1, SyncAt(cfg, i - 1).value);
      if RefinesOptions(cfg, i - 1, SyncAt(cfg, i - 1).value) {
        FoldPush(cfg.initial, MatchedOptions(cfg, i - 1), cfg.rules[i - 1].action.options);
      } else {
        assert MatchedOptions(cfg, i - 1) + [] == MatchedOptions(cfg, i - 1);
      }
    }
  }
}
