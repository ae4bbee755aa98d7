/** Which outbounds the rules can reach: the collection of references
    (route/reference_rule.go, collectRuleReferences) against the first-match
    scan (route/route.go, matchRule). */
module ReferenceScan {
  import opened Common
  import opened ReferenceRules

  /** Actions that end the scan. */
  predicate Final(action: Action) {
    match action
    case Route(_) => true
    case Bypass(outbound) => outbound != ""
    case Reject => true
    case HijackDNS => true
    case Resolve(_) => false
    case Other => false
  }

  /** The outbound a final action sends to. */
  function Target(action: Action): Option<string> {
    match action
    case Route(outbound) => Some(outbound)
    case Bypass(outbound) => if outbound != "" then Some(outbound) else None
    case _ => None
  }

  /* The scan. */

  predicate Takes(rules: seq<Rule>, mode: string, fold: Fold, holds: Truth, i: nat)
    requires i < |rules|
  {
    Final(rules[i].action) && Matches(rules[i], mode, fold, holds, [i])
  }

  /** The scan ends at rule i. */
  ghost predicate Selects(rules: seq<Rule>, mode: string, fold: Fold, holds: Truth, i: nat) {
    i < |rules| && Takes(rules, mode, fold, holds, i) && forall j :: 0 <= j < i ==> !Takes(rules, mode, fold, holds, j)
  }

  ghost predicate FallsThrough(rules: seq<Rule>, mode: string, fold: Fold, holds: Truth) {
    forall j :: 0 <= j < |rules| ==> !Takes(rules, mode, fold, holds, j)
  }

  method MatchRule(rules: seq<Rule>, mode: string, fold: Fold, holds: Truth) returns (selected: Option<nat>)
    ensures selected.Some? ==> Selects(rules, mode, fold, holds, selected.value)
    ensures selected.None? ==> FallsThrough(rules, mode, fold, holds)
  {
    for i := 0 to |rules|
      invariant forall j :: 0 <= j < i ==> !Takes(rules, mode, fold, holds, j)
    {
      if Matches(rules[i], mode, fold, holds, [i]) {
        match rules[i].action
        case Route(_) => return Some(i);
        case Reject => return Some(i);
        case HijackDNS => return Some(i);
        case Bypass(outbound) =>
          if outbound != "" {
            return Some(i);
          }
        case _ =>
      }
    }
    return None;
  }

  /* The analysis. */

  /** The analysis stops at rule i: it always matches and ends the scan. */
  predicate Stops(rules: seq<Rule>, mode: string, fold: Fold, i: nat)
    requires i < |rules|
  {
    Final(rules[i].action) && Evaluate(rules[i], mode, fold) == Always
  }

  /** The analysis reads the action of rule i. */
  ghost predicate Considers(rules: seq<Rule>, mode: string, fold: Fold, i: nat) {
    && i < |rules| && Evaluate(rules[i], mode, fold) != Never
    && forall j :: 0 <= j < i ==> !Stops(rules, mode, fold, j)
  }

  ghost predicate Collects(rules: seq<Rule>, mode: string, fold: Fold, tag: string, n: nat) {
    exists i :: 0 <= i < n && Considers(rules, mode, fold, i) && Target(rules[i].action) == Some(tag)
  }

  ghost predicate CollectsServer(rules: seq<Rule>, mode: string, fold: Fold, tag: string, n: nat) {
    exists i :: 0 <= i < n && Considers(rules, mode, fold, i) && rules[i].action == Resolve(tag)
  }

  ghost predicate Shadowed(rules: seq<Rule>, mode: string, fold: Fold) {
    exists i :: 0 <= i < |rules| && Stops(rules, mode, fold, i)
  }

  /** The list after rule n holds what it held and what was collected. */
  ghost predicate Gathered(rules: seq<Rule>, mode: string, fold: Fold, start: seq<string>, list: seq<string>, n: nat) {
    forall t :: t in list <==> t in start || Collects(rules, mode, fold, t, n)
  }

  ghost predicate GatheredServers(rules: seq<Rule>, mode: string, fold: Fold, start: seq<string>, list: seq<string>, n: nat) {
    forall t :: t in list <==> t in start || CollectsServer(rules, mode, fold, t, n)
  }

  lemma CollectsMore(rules: seq<Rule>, mode: string, fold: Fold, n: nat, t: string)
    requires n < |rules| && forall j :: 0 <= j < n ==> !Stops(rules, mode, fold, j)
    ensures Collects(rules, mode, fold, t, n + 1)
       <==> Collects(rules, mode, fold, t, n) || (Evaluate(rules[n], mode, fold) != Never && Target(rules[n].action) == Some(t))
    ensures CollectsServer(rules, mode, fold, t, n + 1)
       <==> CollectsServer(rules, mode, fold, t, n) || (Evaluate(rules[n], mode, fold) != Never && rules[n].action == Resolve(t))
  {
    assert Evaluate(rules[n], mode, fold) != Never ==> Considers(rules, mode, fold, n);
  }

  /** A rule at which the analysis stops is the last one considered. */
  lemma StoppedAt(rules: seq<Rule>, mode: string, fold: Fold, n: nat, t: string)
    requires n < |rules| && Stops(rules, mode, fold, n)
    ensures Collects(rules, mode, fold, t, |rules|) <==> Collects(rules, mode, fold, t, n + 1)
    ensures CollectsServer(rules, mode, fold, t, |rules|) <==> CollectsServer(rules, mode, fold, t, n + 1)
  {}

  method CollectRuleReferences(rules: seq<Rule>, mode: string, fold: Fold, outbounds0: seq<string>, transports0: seq<string>)
    returns (outbounds: seq<string>, transports: seq<string>, shadowed: bool)
    ensures shadowed <==> Shadowed(rules, mode, fold)
    ensures Gathered(rules, mode, fold, outbounds0, outbounds, |rules|)
    ensures GatheredServers(rules, mode, fold, transports0, transports, |rules|)
  {
    outbounds, transports := outbounds0, transports0;
    for i := 0 to |rules|
      invariant forall j :: 0 <= j < i ==> !Stops(rules, mode, fold, j)
      invariant Gathered(rules, mode, fold, outbounds0, outbounds, i)
      invariant GatheredServers(rules, mode, fold, transports0, transports, i)
    {
      var m := EvaluateRule(rules[i], mode, fold);
      forall t {
        CollectsMore(rules, mode, fold, i, t);
      }
      if m != Never {
        outbounds, transports := TakeAction(rules[i].action, outbounds, transports);
        if Final(rules[i].action) && m == Always {
          forall t {
            StoppedAt(rules, mode, fold, i, t);
          }
          assert Stops(rules, mode, fold, i);
          return outbounds, transports, true;
        }
      }
    }
    shadowed := false;
  }

  method TakeAction(action: Action, outbounds0: seq<string>, transports0: seq<string>)
    returns (outbounds: seq<string>, transports: seq<string>)
    ensures outbounds == outbounds0 + (if Target(action).Some? then [Target(action).value] else [])
    ensures transports == transports0 + (if action.Resolve? then [action.server] else [])
  {
    outbounds, transports := outbounds0, transports0;
    match action
    case Route(outbound) => outbounds := outbounds + [outbound];
    case Bypass(outbound) =>
      if outbound != "" {
        outbounds := outbounds + [outbound];
      }
    case Resolve(server) => transports := transports + [server];
    case _ =>
  }

  /* Soundness. */

  /** A rule the analysis misjudges: it has no condition and is inverted. It
      matches every connection, but is taken never to match. */
  predicate Blind(rule: Rule) {
    Empty(rule) && rule.invert && Final(rule.action)
  }

  ghost predicate AllBuildable(rules: seq<Rule>) {
    forall i :: 0 <= i < |rules| ==> Buildable(rules[i])
  }

  lemma StopsTakes(rules: seq<Rule>, mode: string, fold: Fold, holds: Truth, i: nat)
    requires AllBuildable(rules) && i < |rules| && Stops(rules, mode, fold, i)
    ensures Takes(rules, mode, fold, holds, i)
  {
    if !Empty(rules[i]) {
      EvaluateSound(rules[i], mode, fold, holds, [i]);
    }
  }

  /** A connection that no rule takes goes to the default, and then the
      analysis has counted the default as referenced. */
  lemma FallThroughSound(rules: seq<Rule>, mode: string, fold: Fold, holds: Truth)
    requires AllBuildable(rules) && FallsThrough(rules, mode, fold, holds)
    ensures !Shadowed(rules, mode, fold)
  {
    forall i | 0 <= i < |rules| ensures !Stops(rules, mode, fold, i) {
      if Stops(rules, mode, fold, i) {
        StopsTakes(rules, mode, fold, holds, i);
      }
    }
  }

  /** The rule that takes a connection was considered, unless it is blind. */
  lemma SelectionConsidered(rules: seq<Rule>, mode: string, fold: Fold, holds: Truth, i: nat)
    requires AllBuildable(rules) && Selects(rules, mode, fold, holds, i) && !Blind(rules[i])
    ensures Considers(rules, mode, fold, i)
  {
    if !Empty(rules[i]) {
      EvaluateSound(rules[i], mode, fold, holds, [i]);
    }
    forall j | 0 <= j < i ensures !Stops(rules, mode, fold, j) {
      if Stops(rules, mode, fold, j) {
        StopsTakes(rules, mode, fold, holds, j);
      }
    }
  }

  /** Whatever the other conditions decide, the chosen outbound is collected. */
  ghost predicate Sound(rules: seq<Rule>, mode: string, fold: Fold) {
    forall holds: Truth, i: nat ::
      Selects(rules, mode, fold, holds, i) && Target(rules[i].action).Some? ==>
        Collects(rules, mode, fold, Target(rules[i].action).value, |rules|)
  }

  /** The first blind rule that can be reached. */
  ghost predicate ReachedBlind(rules: seq<Rule>, mode: string, fold: Fold, i: nat) {
    && i < |rules| && Blind(rules[i])
    && forall j :: 0 <= j < i ==> !Blind(rules[j]) && !Stops(rules, mode, fold, j)
  }

  /** The exact condition: such a rule, if there is one, sends to no outbound or
      to one that another rule makes referenced. */
  ghost predicate NoBlindTarget(rules: seq<Rule>, mode: string, fold: Fold) {
    forall i: nat :: ReachedBlind(rules, mode, fold, i) && Target(rules[i].action).Some? ==>
      Collects(rules, mode, fold, Target(rules[i].action).value, |rules|)
  }

  lemma BlindTakes(rules: seq<Rule>, mode: string, fold: Fold, holds: Truth, i: nat)
    requires i < |rules| && Blind(rules[i])
    ensures Takes(rules, mode, fold, holds, i)
  {}

  lemma SelectionSound(rules: seq<Rule>, mode: string, fold: Fold, holds: Truth, i: nat)
    requires AllBuildable(rules) && NoBlindTarget(rules, mode, fold)
    requires Selects(rules, mode, fold, holds, i) && Target(rules[i].action).Some?
    ensures Collects(rules, mode, fold, Target(rules[i].action).value, |rules|)
  {
    if Blind(rules[i]) {
      forall j | 0 <= j < i ensures !Blind(rules[j]) && !Stops(rules, mode, fold, j) {
        if Stops(rules, mode, fold, j) {
          StopsTakes(rules, mode, fold, holds, j);
        }
        if Blind(rules[j]) {
          BlindTakes(rules, mode, fold, holds, j);
        }
      }
      assert ReachedBlind(rules, mode, fold, i);
    } else {
      SelectionConsidered(rules, mode, fold, holds, i);
    }
  }

  /** Truth values under which none of the first n rules takes the connection. */
  lemma {:induction false} AvoidAll(rules: seq<Rule>, n: nat, mode: string, fold: Fold) returns (h: Truth)
    requires AllBuildable(rules) && n <= |rules|
    requires forall j :: 0 <= j < n ==> !Blind(rules[j]) && !Stops(rules, mode, fold, j)
    ensures forall j :: 0 <= j < n ==> !Takes(rules, mode, fold, h, j)
    decreases n
  {
    if n == 0 {
      h := (q: seq<nat>) => false;
    } else {
      var g := AvoidAll(rules, n - 1, mode, fold);
      if Final(rules[n - 1].action) {
        assert !Empty(rules[n - 1]);
        var f := Realize(rules[n - 1], false, mode, fold, [n - 1]);
        h := Grafted(f, g, [], n - 1);
        forall j | 0 <= j < n ensures !Takes(rules, mode, fold, h, j) {
          GraftedAgrees(f, g, [], n - 1, j);
          assert [] + [j] == [j];
          if j == n - 1 {
            MatchesFrame(rules[j], mode, fold, h, f, [j]);
          } else {
            MatchesFrame(rules[j], mode, fold, h, g, [j]);
            assert !Takes(rules, mode, fold, g, j);
          }
        }
      } else {
        h := g;
      }
    }
  }

  /** The collected references are sound exactly when no reachable blind rule
      sends to an outbound that nothing else references. */
  lemma SoundExactlyWhen(rules: seq<Rule>, mode: string, fold: Fold)
    requires AllBuildable(rules)
    ensures Sound(rules, mode, fold) <==> NoBlindTarget(rules, mode, fold)
  {
    if NoBlindTarget(rules, mode, fold) {
      forall holds: Truth, i: nat | Selects(rules, mode, fold, holds, i) && Target(rules[i].action).Some?
        ensures Collects(rules, mode, fold, Target(rules[i].action).value, |rules|)
      {
        SelectionSound(rules, mode, fold, holds, i);
      }
    }
    if Sound(rules, mode, fold) {
      forall i: nat | ReachedBlind(rules, mode, fold, i) && Target(rules[i].action).Some?
        ensures Collects(rules, mode, fold, Target(rules[i].action).value, |rules|)
      {
        var h := AvoidAll(rules, i, mode, fold);
        BlindTakes(rules, mode, fold, h, i);
        assert Selects(rules, mode, fold, h, i);
      }
    }
  }

  /** A single rule without conditions, inverted, routes everything to "a", and
      yet nothing is collected and the default counts as referenced. */
  lemma BlindRuleIsMissed(mode: string, fold: Fold, holds: Truth)
    ensures var rules := [Default("", false, true, Route("a"))];
            && Selects(rules, mode, fold, holds, 0)
            && !Collects(rules, mode, fold, "a", |rules|)
            && !Shadowed(rules, mode, fold)
  {
    var rules := [Default("", false, true, Route("a"))];
    assert Evaluate(rules[0], mode, fold) == Never;
    BlindTakes(rules, mode, fold, holds, 0);
  }
}
