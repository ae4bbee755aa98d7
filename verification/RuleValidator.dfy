/**
 The rule validator of dns/router.go (`validateLegacyDNSModeDisabledRules` and
 its rule-tree recursion): it accepts exactly the lists in which every evaluated
 response is defined once and before it is read, which is what the walk relies on.
 */
module RuleValidator {
  import opened Common
  import W = DnsWalk
  import M = DnsWalkMeaning

  datatype MatchResponse = Off | On(tag: string)

  /** The parts of a default rule that validation looks at. `responseFields` is
      set when any field that matches a response or its addresses is given. */
  datatype Conditions = Conditions(
    match_: MatchResponse, responseFields: bool, ruleSets: seq<string>, domainOnly: bool, acceptEmpty: bool)

  datatype OptionRule =
    | Default(conditions: Conditions, action: W.Action, race: bool)
    | Logical(rules: seq<OptionRule>, action: W.Action, race: bool)
    | UnknownType

  datatype RuleSetMetadata = RuleSetMetadata(ipCIDR: bool, nonIPCIDR: bool)

  datatype Error =
    | NeedsMatchResponse
    | RuleSetNotFound(tag: string)
    | AddressFilter
    | AcceptEmptyRemoved
    | TaggedLogicalRespond
    | NeedsEvaluate
    | UndefinedTag(tag: string)
    | DuplicateTag(tag: string)

  datatype Warning =
    | SpeculativeWithoutRace(rule: nat)
    | Overwritten(rule: nat, next: nat)
    | NeverReferenced(tag: string)

  /** `dnsRuleResponseUse`. */
  datatype Use = Use(needsAnonymous: bool, tags: seq<string>)

  function TagOf(m: MatchResponse): string {
    if m.On? then m.tag else ""
  }

  // ----- one rule

  /** The first rule set that is unknown, or that holds nothing but addresses. */
  function RuleSetError(meta: map<string, RuleSetMetadata>, sets: seq<string>): Option<Error> {
    if sets == [] then None
    else if sets[0] !in meta then Some(RuleSetNotFound(sets[0]))
    else if meta[sets[0]].ipCIDR && !meta[sets[0]].nonIPCIDR then Some(AddressFilter)
    else RuleSetError(meta, sets[1..])
  }

  function DefaultUse(meta: map<string, RuleSetMetadata>, c: Conditions, action: W.Action): Result<Use, Error> {
    var setError := if c.match_.Off? && !c.domainOnly then RuleSetError(meta, c.ruleSets) else None;
    if c.responseFields && c.match_.Off? then Err(NeedsMatchResponse)
    else if setError.Some? then Err(setError.value)
    else if c.acceptEmpty then Err(AcceptEmptyRemoved)
    else
      Ok(Use((c.match_.On? && TagOf(c.match_) == "") || (action.Respond? && TagOf(c.match_) == ""),
             if TagOf(c.match_) != "" then [TagOf(c.match_)] else []))
  }

  function TreeUse(meta: map<string, RuleSetMetadata>, r: OptionRule): Result<Use, Error>
    decreases r, 1
  {
    match r
    case Default(c, action, _) => DefaultUse(meta, c, action)
    case Logical(rules, action, _) =>
      (match TreeUses(meta, rules)
       case Err(e) => Err(e)
       case Ok(use) =>
         if !action.Respond? then Ok(use)
         else if use.tags != [] then Err(TaggedLogicalRespond)
         else Ok(use.(needsAnonymous := true)))
    case UnknownType => Ok(Use(false, []))
  }

  function TreeUses(meta: map<string, RuleSetMetadata>, rules: seq<OptionRule>): Result<Use, Error>
    decreases rules, 0
  {
    if rules == [] then Ok(Use(false, []))
    else
      match TreeUse(meta, rules[0])
      case Err(e) => Err(e)
      case Ok(u) =>
        match TreeUses(meta, rules[1..])
        case Err(e) => Err(e)
        case Ok(v) => Ok(Use(u.needsAnonymous || v.needsAnonymous, u.tags + v.tags))
  }

  // ----- what a whole list has to satisfy

  function ActionOf(r: OptionRule): Option<W.Action> {
    match r
    case UnknownType => None
    case _ => Some(r.action)
  }

  predicate IsRace(r: OptionRule) {
    !r.UnknownType? && r.race
  }

  predicate IsSpeculative(r: OptionRule) {
    match ActionOf(r)
    case Some(Evaluate(_, _, speculative, _)) => speculative
    case Some(Route(_, speculative, _)) => speculative
    case _ => false
  }

  predicate EvaluatesAnonymous(r: OptionRule) {
    ActionOf(r).Some? && ActionOf(r).value.Evaluate? && ActionOf(r).value.tag == ""
  }

  predicate DefinesTag(r: OptionRule, tag: string) {
    ActionOf(r).Some? && ActionOf(r).value.Evaluate? && ActionOf(r).value.tag == tag && tag != ""
  }

  predicate ReadsTag(meta: map<string, RuleSetMetadata>, r: OptionRule, tag: string) {
    TreeUse(meta, r).Ok? && tag in TreeUse(meta, r).value.tags
  }

  predicate ReadsAnonymous(meta: map<string, RuleSetMetadata>, r: OptionRule) {
    TreeUse(meta, r).Ok? && TreeUse(meta, r).value.needsAnonymous
  }

  ghost predicate AnonymousBefore(rules: seq<OptionRule>, i: nat) {
    exists d :: 0 <= d < i && d < |rules| && EvaluatesAnonymous(rules[d])
  }

  ghost predicate DefinedBefore(rules: seq<OptionRule>, i: nat, tag: string) {
    exists d :: 0 <= d < i && d < |rules| && DefinesTag(rules[d], tag)
  }

  /** One rule, given the rules before it. */
  ghost predicate RuleAcceptable(meta: map<string, RuleSetMetadata>, rules: seq<OptionRule>, i: nat)
    requires i < |rules|
  {
    && TreeUse(meta, rules[i]).Ok?
    && (ReadsAnonymous(meta, rules[i]) ==> AnonymousBefore(rules, i))
    && (forall t :: ReadsTag(meta, rules[i], t) ==> DefinedBefore(rules, i, t))
    && (forall t :: DefinesTag(rules[i], t) ==> !DefinedBefore(rules, i, t))
  }

  ghost predicate Acceptable(meta: map<string, RuleSetMetadata>, rules: seq<OptionRule>) {
    forall i :: 0 <= i < |rules| ==> RuleAcceptable(meta, rules, i)
  }

  // ----- what the warnings mean

  ghost predicate RaceBefore(rules: seq<OptionRule>, i: nat) {
    exists d :: 0 <= d < i && d < |rules| && IsRace(rules[d])
  }

  /** Rule `i` replaces the anonymous response of rule `d`, which nobody read. */
  ghost predicate Overwrites(meta: map<string, RuleSetMetadata>, rules: seq<OptionRule>, d: nat, i: nat) {
    && d < i < |rules| && EvaluatesAnonymous(rules[d]) && EvaluatesAnonymous(rules[i])
    && (forall j :: d < j < i ==> !EvaluatesAnonymous(rules[j]))
    && (forall j :: d < j <= i ==> !ReadsAnonymous(meta, rules[j]))
  }

  ghost predicate WarningHolds(meta: map<string, RuleSetMetadata>, rules: seq<OptionRule>, w: Warning) {
    match w
    case SpeculativeWithoutRace(i) => i < |rules| && IsSpeculative(rules[i]) && !RaceBefore(rules, i)
    case Overwritten(d, i) => Overwrites(meta, rules, d, i)
    case NeverReferenced(t) =>
      DefinedBefore(rules, |rules|, t) && forall j :: 0 <= j < |rules| ==> !ReadsTag(meta, rules[j], t)
  }

  /** The rule at which a warning of the first two kinds is given. */
  function WarnedAt(w: Warning): nat {
    match w
    case SpeculativeWithoutRace(i) => i
    case Overwritten(_, i) => i
    case NeverReferenced(_) => 0
  }

  /** The warnings given before rule `i` is looked at. */
  ghost predicate WarnedSoFar(meta: map<string, RuleSetMetadata>, rules: seq<OptionRule>, i: nat, ws: seq<Warning>) {
    forall w :: w in ws <==> !w.NeverReferenced? && WarnedAt(w) < i && WarningHolds(meta, rules, w)
  }

  ghost predicate TagsSoFar(rules: seq<OptionRule>, i: nat, defined: set<string>) {
    forall t :: t in defined <==> DefinedBefore(rules, i, t)
  }

  ghost predicate ReadsSoFar(meta: map<string, RuleSetMetadata>, rules: seq<OptionRule>, i: nat, referenced: set<string>) {
    forall t :: t in referenced <==> exists j :: 0 <= j < i && j < |rules| && ReadsTag(meta, rules[j], t)
  }

  /** `last` is the latest anonymous evaluate, and `read` whether it was read since. */
  ghost predicate LastAnonymous(meta: map<string, RuleSetMetadata>, rules: seq<OptionRule>, i: nat, last: Option<nat>, read: bool)
    requires i <= |rules|
  {
    if last.None? then forall j :: 0 <= j < i ==> !EvaluatesAnonymous(rules[j])
    else
      && last.value < i && EvaluatesAnonymous(rules[last.value])
      && (forall j :: last.value < j < i ==> !EvaluatesAnonymous(rules[j]))
      && (read <==> exists j :: last.value < j < i && ReadsAnonymous(meta, rules[j]))
  }

  /** The loop over the tags a rule reads. */
  method CheckTags(tags: seq<string>, defined: set<string>, referenced: set<string>) returns (undefined: Option<string>, referenced': set<string>)
    ensures undefined.None? <==> forall t :: t in tags ==> t in defined
    ensures undefined.Some? ==> undefined.value in tags && undefined.value !in defined
    ensures undefined.None? ==> referenced' == referenced + set t | t in tags
  {
    undefined, referenced' := None, referenced;
    var k := 0;
    while k < |tags|
      invariant k <= |tags|
      invariant forall t :: t in tags[..k] ==> t in defined
      invariant referenced' == referenced + set t | t in tags[..k]
    {
      if tags[k] !in defined {
        undefined := Some(tags[k]);
        return;
      }
      referenced' := referenced' + {tags[k]};
      assert tags[..k + 1] == tags[..k] + [tags[k]];
      k := k + 1;
    }
    assert tags[..k] == tags;
  }

  lemma TagsStep(rules: seq<OptionRule>, i: nat, defined: set<string>, defined': set<string>)
    requires i < |rules| && TagsSoFar(rules, i, defined)
    requires forall t :: t in defined' <==> t in defined || DefinesTag(rules[i], t)
    ensures TagsSoFar(rules, i + 1, defined')
  {
    forall t ensures t in defined' <==> DefinedBefore(rules, i + 1, t) {
      assert DefinedBefore(rules, i + 1, t) <==> DefinedBefore(rules, i, t) || DefinesTag(rules[i], t);
    }
  }

  lemma ReadsStep(meta: map<string, RuleSetMetadata>, rules: seq<OptionRule>, i: nat, referenced: set<string>, referenced': set<string>)
    requires i < |rules| && ReadsSoFar(meta, rules, i, referenced)
    requires forall t :: t in referenced' <==> t in referenced || ReadsTag(meta, rules[i], t)
    ensures ReadsSoFar(meta, rules, i + 1, referenced')
  {}

  lemma OverwritesIsLast(meta: map<string, RuleSetMetadata>, rules: seq<OptionRule>, i: nat, last: Option<nat>, read: bool, d: nat)
    requires i < |rules| && LastAnonymous(meta, rules, i, last, read) && EvaluatesAnonymous(rules[i])
    ensures Overwrites(meta, rules, d, i) <==> last == Some(d) && !read && !ReadsAnonymous(meta, rules[i])
  {}

  /** The warnings of rule `i` itself. */
  lemma WarnStep(meta: map<string, RuleSetMetadata>, rules: seq<OptionRule>, i: nat, ws: seq<Warning>, ws': seq<Warning>, last: Option<nat>, read: bool)
    requires i < |rules| && WarnedSoFar(meta, rules, i, ws) && LastAnonymous(meta, rules, i, last, read)
    requires forall w :: w in ws' <==>
               || w in ws
               || (w == SpeculativeWithoutRace(i) && IsSpeculative(rules[i]) && !RaceBefore(rules, i))
               || (EvaluatesAnonymous(rules[i]) && last.Some? && w == Overwritten(last.value, i)
                   && !read && !ReadsAnonymous(meta, rules[i]))
    ensures WarnedSoFar(meta, rules, i + 1, ws')
  {
    forall w ensures w in ws' <==> !w.NeverReferenced? && WarnedAt(w) < i + 1 && WarningHolds(meta, rules, w) {
      if w.Overwritten? && w.next == i && EvaluatesAnonymous(rules[i]) {
        OverwritesIsLast(meta, rules, i, last, read, w.rule);
      }
    }
  }

  /** The last loop: evaluate tags that no rule reads. */
  method UnreferencedTags(definedOrder: seq<string>, referenced: set<string>) returns (ws: seq<Warning>)
    ensures forall w :: w in ws <==> w.NeverReferenced? && w.tag in definedOrder && w.tag !in referenced
  {
    ws := [];
    var k := 0;
    while k < |definedOrder|
      invariant k <= |definedOrder|
      invariant forall w :: w in ws <==> w.NeverReferenced? && w.tag in definedOrder[..k] && w.tag !in referenced
    {
      if definedOrder[k] !in referenced {
        ws := ws + [NeverReferenced(definedOrder[k])];
      }
      assert definedOrder[..k + 1] == definedOrder[..k] + [definedOrder[k]];
      k := k + 1;
    }
    assert definedOrder[..k] == definedOrder;
  }

  /** What the loop knows before rule `i`. */
  ghost predicate Scanned(meta: map<string, RuleSetMetadata>, rules: seq<OptionRule>, i: nat, p: Pass) {
    && i <= |rules|
    && (forall j :: 0 <= j < i ==> RuleAcceptable(meta, rules, j))
    && p.seenAnonymous == AnonymousBefore(rules, i) && p.seenRace == RaceBefore(rules, i)
    && TagsSoFar(rules, i, p.defined) && (forall t :: t in p.definedOrder <==> t in p.defined)
    && ReadsSoFar(meta, rules, i, p.referenced)
    && LastAnonymous(meta, rules, i, p.last, p.read)
    && WarnedSoFar(meta, rules, i, p.warnings)
  }

  /** The variables of the loop. */
  datatype Pass = Pass(
    warnings: seq<Warning>, seenAnonymous: bool, seenRace: bool, defined: set<string>, definedOrder: seq<string>,
    referenced: set<string>, last: Option<nat>, read: bool)

  /** The variables after the checks on what rule `i` reads. */
  ghost predicate ReadsChecked(meta: map<string, RuleSetMetadata>, rules: seq<OptionRule>, i: nat, p: Pass, q: Pass)
    requires i < |rules|
  {
    && TreeUse(meta, rules[i]).Ok?
    && (ReadsAnonymous(meta, rules[i]) ==> p.seenAnonymous)
    && (forall t :: ReadsTag(meta, rules[i], t) ==> t in p.defined)
    && q == p.(warnings := if IsSpeculative(rules[i]) && !p.seenRace then p.warnings + [SpeculativeWithoutRace(i)] else p.warnings,
               seenRace := p.seenRace || IsRace(rules[i]),
               read := p.read || ReadsAnonymous(meta, rules[i]),
               referenced := p.referenced + set t | t in TreeUse(meta, rules[i]).value.tags)
  }

  /** The variables after the checks on what rule `i` defines. */
  ghost predicate Defined(rules: seq<OptionRule>, i: nat, q: Pass, p': Pass)
    requires i < |rules|
  {
    if EvaluatesAnonymous(rules[i]) then
      p' == q.(warnings := if q.last.Some? && !q.read then q.warnings + [Overwritten(q.last.value, i)] else q.warnings,
               seenAnonymous := true, last := Some(i), read := false)
    else if ActionOf(rules[i]).Some? && ActionOf(rules[i]).value.Evaluate? then
      var tag := ActionOf(rules[i]).value.tag;
      tag !in q.defined && p' == q.(defined := q.defined + {tag}, definedOrder := q.definedOrder + [tag])
    else p' == q
  }

  lemma SeenStep(rules: seq<OptionRule>, i: nat)
    requires i < |rules|
    ensures AnonymousBefore(rules, i + 1) <==> AnonymousBefore(rules, i) || EvaluatesAnonymous(rules[i])
    ensures RaceBefore(rules, i + 1) <==> RaceBefore(rules, i) || IsRace(rules[i])
  {}

  lemma LastStep(meta: map<string, RuleSetMetadata>, rules: seq<OptionRule>, i: nat, last: Option<nat>, read: bool)
    requires i < |rules| && LastAnonymous(meta, rules, i, last, read)
    ensures if EvaluatesAnonymous(rules[i]) then LastAnonymous(meta, rules, i + 1, Some(i), false)
            else LastAnonymous(meta, rules, i + 1, last, read || ReadsAnonymous(meta, rules[i]))
  {}

  lemma AcceptStep(meta: map<string, RuleSetMetadata>, rules: seq<OptionRule>, i: nat, p: Pass, q: Pass, p': Pass)
    requires i < |rules| && p.seenAnonymous == AnonymousBefore(rules, i) && TagsSoFar(rules, i, p.defined)
    requires ReadsChecked(meta, rules, i, p, q) && Defined(rules, i, q, p')
    ensures RuleAcceptable(meta, rules, i)
  {}

  lemma ScanStep(meta: map<string, RuleSetMetadata>, rules: seq<OptionRule>, i: nat, p: Pass, q: Pass, p': Pass)
    requires i < |rules| && Scanned(meta, rules, i, p) && ReadsChecked(meta, rules, i, p, q) && Defined(rules, i, q, p')
    ensures Scanned(meta, rules, i + 1, p')
  {
    WarnStep(meta, rules, i, p.warnings, p'.warnings, p.last, p.read);
    TagsStep(rules, i, p.defined, p'.defined);
    ReadsStep(meta, rules, i, p.referenced, p'.referenced);
    AcceptStep(meta, rules, i, p, q, p');
    SeenStep(rules, i);
    LastStep(meta, rules, i, p.last, p.read);
  }

  lemma ScanEnd(meta: map<string, RuleSetMetadata>, rules: seq<OptionRule>, p: Pass, unreferenced: seq<Warning>)
    requires Scanned(meta, rules, |rules|, p)
    requires forall w :: w in unreferenced <==> w.NeverReferenced? && w.tag in p.definedOrder && w.tag !in p.referenced
    ensures Acceptable(meta, rules) && forall w :: w in p.warnings + unreferenced <==> WarningHolds(meta, rules, w)
  {
    forall w ensures w in p.warnings + unreferenced <==> WarningHolds(meta, rules, w) {
      assert w in p.warnings + unreferenced <==> w in p.warnings || w in unreferenced;
    }
  }

  /**
   `validateLegacyDNSModeDisabledRules`: the list is accepted if and only if it is
   acceptable, and the warnings are exactly the ones that hold.
   */
  method ValidateRules(meta: map<string, RuleSetMetadata>, rules: seq<OptionRule>) returns (r: Result<seq<Warning>, Error>)
    ensures r.Ok? <==> Acceptable(meta, rules)
    ensures r.Ok? ==> forall w :: w in r.value <==> WarningHolds(meta, rules, w)
  {
    var p := Pass([], false, false, {}, [], {}, None, false);
    var i := 0;
    while i < |rules|
      invariant Scanned(meta, rules, i, p)
    {
      var q := CheckRule(meta, rules, i, p);
      if q.Err? { return Err(q.error); }
      p := q.value;
      i := i + 1;
    }
    var unreferenced := UnreferencedTags(p.definedOrder, p.referenced);
    ScanEnd(meta, rules, p, unreferenced);
    r := Ok(p.warnings + unreferenced);
  }

  /** The loop body. */
  method CheckRule(meta: map<string, RuleSetMetadata>, rules: seq<OptionRule>, i: nat, p: Pass) returns (r: Result<Pass, Error>)
    requires i < |rules| && Scanned(meta, rules, i, p)
    ensures r.Ok? ==> Scanned(meta, rules, i + 1, r.value)
    ensures r.Err? ==> !RuleAcceptable(meta, rules, i)
  {
    var q := CheckReads(meta, rules, i, p);
    if q.Err? { return q; }
    r := CheckDefines(rules, i, q.value);
    if r.Err? {
      assert !RuleAcceptable(meta, rules, i);
    } else {
      ScanStep(meta, rules, i, p, q.value, r.value);
    }
  }

  /** The first half of the loop body: the rule tree, race, and what is read. */
  method CheckReads(meta: map<string, RuleSetMetadata>, rules: seq<OptionRule>, i: nat, p: Pass) returns (q: Result<Pass, Error>)
    requires i < |rules| && Scanned(meta, rules, i, p)
    ensures q.Ok? ==> ReadsChecked(meta, rules, i, p, q.value)
    ensures q.Err? ==> !RuleAcceptable(meta, rules, i)
  {
    var rule := rules[i];
    var use := TreeUse(meta, rule);
    if use.Err? { return Err(use.error); }
    var warnings, seenRace, read := p.warnings, p.seenRace, p.read;
    if IsSpeculative(rule) && !seenRace {
      warnings := warnings + [SpeculativeWithoutRace(i)];
    }
    if IsRace(rule) { seenRace := true; }
    if use.value.needsAnonymous {
      if !p.seenAnonymous { return Err(NeedsEvaluate); }
      read := true;
    }
    var undefined, referenced := CheckTags(use.value.tags, p.defined, p.referenced);
    if undefined.Some? {
      assert ReadsTag(meta, rules[i], undefined.value);
      return Err(UndefinedTag(undefined.value));
    }
    q := Ok(p.(warnings := warnings, seenRace := seenRace, read := read, referenced := referenced));
  }

  /** The second half of the loop body: what an evaluate rule defines. */
  method CheckDefines(rules: seq<OptionRule>, i: nat, q: Pass) returns (p: Result<Pass, Error>)
    requires i < |rules| && TagsSoFar(rules, i, q.defined)
    ensures p.Ok? ==> Defined(rules, i, q, p.value)
    ensures p.Err? ==> exists t :: DefinesTag(rules[i], t) && DefinedBefore(rules, i, t)
  {
    p := Ok(q);
    var action := ActionOf(rules[i]);
    if action.Some? && action.value.Evaluate? {
      var tag := action.value.tag;
      if tag == "" {
        var warnings := q.warnings;
        if q.last.Some? && !q.read { warnings := warnings + [Overwritten(q.last.value, i)]; }
        p := Ok(q.(warnings := warnings, seenAnonymous := true, last := Some(i), read := false));
      } else if tag in q.defined {
        assert DefinesTag(rules[i], tag);
        p := Err(DuplicateTag(tag));
      } else {
        p := Ok(q.(defined := q.defined + {tag}, definedOrder := q.definedOrder + [tag]));
      }
    }
  }

  // ----- the rules that are built from an accepted list

  /** `NewDNSRule` accepts only known rule types, at every level. */
  predicate Buildable(r: OptionRule) {
    match r
    case Default(_, _, _) => true
    case Logical(rules, _, _) => forall s :: s in rules ==> Buildable(s)
    case UnknownType => false
  }

  /** `MatchResponseTags` of the rule that is built. */
  function BuiltTags(r: OptionRule): seq<string>
    decreases r, 1
  {
    match r
    case Default(c, _, _) => if TagOf(c.match_) == "" then [] else [TagOf(c.match_)]
    case Logical(rules, _, _) => Uniq(AllBuiltTags(rules))
    case UnknownType => []
  }

  function AllBuiltTags(rules: seq<OptionRule>): seq<string>
    decreases rules, 0
  {
    if rules == [] then [] else BuiltTags(rules[0]) + AllBuiltTags(rules[1..])
  }

  function Uniq(ts: seq<string>): (u: seq<string>)
    ensures forall t :: t in u <==> t in ts
    ensures forall a, b :: 0 <= a < b < |u| ==> u[a] != u[b]
  {
    if ts == [] then []
    else
      var front := Uniq(ts[..|ts| - 1]);
      var t := ts[|ts| - 1];
      assert ts == ts[..|ts| - 1] + [t];
      if t in front then front else front + [t]
  }

  function BuiltAnonymous(r: OptionRule): bool {
    match r
    case Default(c, _, _) => c.match_.On? && c.match_.tag == ""
    case Logical(rules, _, _) => exists s :: s in rules && BuiltAnonymous(s)
    case UnknownType => false
  }

  /** The walk's view of an option rule. */
  function Built(r: OptionRule): W.Rule
    requires Buildable(r)
  {
    W.Rule(BuiltTags(r), if r.Default? then TagOf(r.conditions.match_) else "", BuiltAnonymous(r), r.race, r.action)
  }

  lemma {:induction false} BuiltTagsAreRead(meta: map<string, RuleSetMetadata>, r: OptionRule, t: string)
    requires TreeUse(meta, r).Ok?
    ensures t in BuiltTags(r) <==> t in TreeUse(meta, r).value.tags
    decreases r, 1
  {
    if r.Logical? { AllBuiltTagsAreRead(meta, r.rules, t); }
  }

  lemma {:induction false} AllBuiltTagsAreRead(meta: map<string, RuleSetMetadata>, rules: seq<OptionRule>, t: string)
    requires TreeUses(meta, rules).Ok?
    ensures t in AllBuiltTags(rules) <==> t in TreeUses(meta, rules).value.tags
    decreases rules, 0
  {
    if rules != [] {
      BuiltTagsAreRead(meta, rules[0], t);
      AllBuiltTagsAreRead(meta, rules[1..], t);
    }
  }

  function BuiltRules(rules: seq<OptionRule>): (built: seq<W.Rule>)
    requires forall r :: r in rules ==> Buildable(r)
    ensures |built| == |rules| && forall i :: 0 <= i < |rules| ==> built[i] == Built(rules[i])
  {
    seq(|rules|, i requires 0 <= i < |rules| => Built(rules[i]))
  }

  lemma RespondReads(meta: map<string, RuleSetMetadata>, r: OptionRule)
    requires Buildable(r) && TreeUse(meta, r).Ok? && Built(r).action.Respond?
    ensures if Built(r).respondTag != "" then Built(r).respondTag in Built(r).tags else Built(r).tags == []
  {
    if r.Logical? && BuiltTags(r) != [] {
      BuiltTagsAreRead(meta, r, BuiltTags(r)[0]);
    }
  }

  lemma BuiltDefines(r: OptionRule, t: string)
    requires Buildable(r)
    ensures M.Defines(Built(r), t) <==> DefinesTag(r, t)
  {}

  /** An accepted list has the properties that the walk relies on. */
  lemma AcceptedForTheWalk(meta: map<string, RuleSetMetadata>, rules: seq<OptionRule>)
    requires Acceptable(meta, rules) && forall r :: r in rules ==> Buildable(r)
    ensures M.Accepted(BuiltRules(rules))
  {
    var built := BuiltRules(rules);
    forall d, e, t | 0 <= d < e < |built| && M.Defines(built[d], t) ensures !M.Defines(built[e], t) {
      BuiltDefines(rules[d], t);
      BuiltDefines(rules[e], t);
      assert RuleAcceptable(meta, rules, e);
      assert DefinedBefore(rules, e, t);
    }
    forall d, j, t | 0 <= d < |built| && 0 <= j < |built| && t in built[j].tags && M.Defines(built[d], t)
      ensures d < j
    {
      assert RuleAcceptable(meta, rules, j) && RuleAcceptable(meta, rules, d);
      BuiltTagsAreRead(meta, rules[j], t);
      BuiltDefines(rules[d], t);
      assert ReadsTag(meta, rules[j], t) && DefinesTag(rules[d], t);
      var d' :| 0 <= d' < j && DefinesTag(rules[d'], t);
      assert !DefinedBefore(rules, d, t);
    }
    forall j | 0 <= j < |built| && built[j].action.Respond?
      ensures if built[j].respondTag != "" then built[j].respondTag in built[j].tags else built[j].tags == []
    {
      assert RuleAcceptable(meta, rules, j);
      RespondReads(meta, rules[j]);
    }
  }
}
