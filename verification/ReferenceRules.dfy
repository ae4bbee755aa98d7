/** The three-valued evaluation of route rules for a fixed clash mode
    (route/reference_rule.go) against the scan that routes a connection
    (route/route.go, matchRule). What the other conditions of a rule decide is
    an arbitrary truth value for each rule of the tree, named by its path. */
module ReferenceRules {

  datatype Action =
    | Route(outbound: string)
    | Bypass(outbound: string)
    | Reject
    | HijackDNS
    | Resolve(server: string)
    | Other

  datatype Mode = And | Or

  /** `others`: the rule has conditions besides the clash mode. */
  datatype Rule =
    | Default(clashMode: string, others: bool, invert: bool, action: Action)
    | Logical(mode: Mode, rules: seq<Rule>, invert: bool, action: Action)

  /** Case folding of mode names. */
  type Fold = string -> string

  type Truth = seq<nat> -> bool

  /* The concrete meaning. */

  predicate Empty(rule: Rule) {
    rule.Default? && rule.clashMode == "" && !rule.others
  }

  /** Does the rule match? A rule without any condition always does, inverted
      or not. */
  predicate Matches(rule: Rule, mode: string, fold: Fold, holds: Truth, path: seq<nat>) {
    match rule
    case Default(clashMode, others, invert, _) =>
      Empty(rule) || ((clashMode == "" || fold(clashMode) == fold(mode)) && (others ==> holds(path))) != invert
    case Logical(And, rules, invert, _) =>
      (forall i :: 0 <= i < |rules| ==> Matches(rules[i], mode, fold, holds, path + [i])) != invert
    case Logical(Or, rules, invert, _) =>
      (exists i :: 0 <= i < |rules| && Matches(rules[i], mode, fold, holds, path + [i])) != invert
  }

  /** Sub-rules that could be built: each has a condition. */
  predicate Buildable(rule: Rule) {
    rule.Logical? ==> forall i :: 0 <= i < |rule.rules| ==> !Empty(rule.rules[i]) && Buildable(rule.rules[i])
  }

  /* The analysis. */

  datatype Static = Unknown | Never | Always

  function Inverted(m: Static): Static {
    match m case Never => Always case Always => Never case Unknown => Unknown
  }

  function EvaluateClashMode(clashMode: string, mode: string, fold: Fold, invert: bool, others: bool): Static {
    var m := if clashMode != "" && fold(clashMode) != fold(mode) then Never else if !others then Always else Unknown;
    if invert then Inverted(m) else m
  }

  /** The combined value: decided by one decisive member, else unknown if any is. */
  function Combined(matches: seq<Static>, mode: Mode): Static {
    var decisive, neutral := if mode == And then Never else Always, if mode == And then Always else Never;
    if decisive in matches then decisive else if Unknown in matches then Unknown else neutral
  }

  function Evaluate(rule: Rule, mode: string, fold: Fold): Static {
    match rule
    case Default(clashMode, others, invert, _) => EvaluateClashMode(clashMode, mode, fold, invert, others)
    case Logical(logical, rules, invert, _) =>
      var m := Combined(EvaluateAll(rules, mode, fold), logical);
      if invert then Inverted(m) else m
  }

  function EvaluateAll(rules: seq<Rule>, mode: string, fold: Fold): (r: seq<Static>)
    ensures |r| == |rules|
    ensures forall i :: 0 <= i < |rules| ==> r[i] == Evaluate(rules[i], mode, fold)
  {
    seq(|rules|, i requires 0 <= i < |rules| => Evaluate(rules[i], mode, fold))
  }

  method EvaluateLogical(matches: seq<Static>, mode: Mode, invert: bool) returns (r: Static)
    ensures r == if invert then Inverted(Combined(matches, mode)) else Combined(matches, mode)
  {
    var found: Static := if mode == And then Always else Never;
    var i := 0;
    while i < |matches|
      invariant 0 <= i <= |matches|
      invariant (if mode == And then Never else Always) !in matches[..i]
      invariant found == Combined(matches[..i], mode)
    {
      assert matches[..i + 1] == matches[..i] + [matches[i]];
      if mode == And && matches[i] == Never {
        found := Never;
        break;
      }
      if mode == Or && matches[i] == Always {
        found := Always;
        break;
      }
      if matches[i] == Unknown {
        found := Unknown;
      }
      i := i + 1;
    }
    assert i == |matches| ==> matches[..i] == matches;
    assert found == Combined(matches, mode);
    r := if invert then Inverted(found) else found;
  }

  method EvaluateRule(rule: Rule, mode: string, fold: Fold) returns (r: Static)
    ensures r == Evaluate(rule, mode, fold)
    decreases rule
  {
    match rule
    case Default(clashMode, others, invert, _) =>
      r := EvaluateClashMode(clashMode, mode, fold, invert, others);
    case Logical(logical, rules, invert, _) =>
      var matches: seq<Static> := [];
      for i := 0 to |rules|
        invariant matches == EvaluateAll(rules, mode, fold)[..i]
      {
        var m := EvaluateRule(rules[i], mode, fold);
        matches := matches + [m];
      }
      r := EvaluateLogical(matches, logical, invert);
  }

  /* Soundness and exactness for one rule. */

  ghost predicate Permits(m: Static, b: bool) {
    (m == Always ==> b) && (m == Never ==> !b)
  }

  /** What the analysis says holds of every connection. */
  lemma {:induction false} EvaluateSound(rule: Rule, mode: string, fold: Fold, holds: Truth, path: seq<nat>)
    requires !Empty(rule) && Buildable(rule)
    ensures Permits(Evaluate(rule, mode, fold), Matches(rule, mode, fold, holds, path))
    decreases rule
  {
    if rule.Logical? {
      var all := EvaluateAll(rule.rules, mode, fold);
      forall i | 0 <= i < |rule.rules| ensures Permits(all[i], Matches(rule.rules[i], mode, fold, holds, path + [i])) {
        EvaluateSound(rule.rules[i], mode, fold, holds, path + [i]);
      }
      if Never in all {
        var i :| 0 <= i < |all| && all[i] == Never;
        assert !Matches(rule.rules[i], mode, fold, holds, path + [i]);
      }
      if Always in all {
        var i :| 0 <= i < |all| && all[i] == Always;
        assert Matches(rule.rules[i], mode, fold, holds, path + [i]);
      }
      CombinedSound(rule, all, mode, fold, holds, path);
    }
  }

  lemma CombinedSound(rule: Rule, all: seq<Static>, mode: string, fold: Fold, holds: Truth, path: seq<nat>)
    requires rule.Logical? && all == EvaluateAll(rule.rules, mode, fold)
    requires forall i :: 0 <= i < |rule.rules| ==> Permits(all[i], Matches(rule.rules[i], mode, fold, holds, path + [i]))
    ensures Permits(Evaluate(rule, mode, fold), Matches(rule, mode, fold, holds, path))
  {
    var plain := Combined(all, rule.mode);
    match rule.mode
    case And =>
      assert plain == Always ==> forall i :: 0 <= i < |all| ==> all[i] in all && all[i] == Always;
    case Or =>
      assert plain == Never ==> forall i :: 0 <= i < |all| ==> all[i] in all && all[i] == Never;
  }

  /** The same truth values from this path on. */
  ghost predicate AgreeFrom(a: Truth, b: Truth, path: seq<nat>) {
    forall q :: path <= q ==> a(q) == b(q)
  }

  lemma AgreeDeeper(a: Truth, b: Truth, path: seq<nat>, i: nat)
    requires AgreeFrom(a, b, path)
    ensures AgreeFrom(a, b, path + [i])
  {
    forall q | path + [i] <= q ensures a(q) == b(q) {
      assert path == (path + [i])[..|path|] == q[..|path|];
    }
  }

  /** A rule reads only the truth values of its own tree. */
  lemma {:induction false} MatchesFrame(rule: Rule, mode: string, fold: Fold, a: Truth, b: Truth, path: seq<nat>)
    requires AgreeFrom(a, b, path)
    ensures Matches(rule, mode, fold, a, path) == Matches(rule, mode, fold, b, path)
    decreases rule
  {
    if rule.Logical? {
      forall i | 0 <= i < |rule.rules|
        ensures Matches(rule.rules[i], mode, fold, a, path + [i]) == Matches(rule.rules[i], mode, fold, b, path + [i])
      {
        AgreeDeeper(a, b, path, i);
        MatchesFrame(rule.rules[i], mode, fold, a, b, path + [i]);
      }
    }
  }

  /** `a` below path + [i], `b` elsewhere. */
  function Grafted(a: Truth, b: Truth, path: seq<nat>, i: nat): Truth {
    (q: seq<nat>) => if |q| > |path| && q[|path|] == i then a(q) else b(q)
  }

  lemma GraftedAgrees(a: Truth, b: Truth, path: seq<nat>, i: nat, j: nat)
    ensures i == j ==> AgreeFrom(Grafted(a, b, path, i), a, path + [j])
    ensures i != j ==> AgreeFrom(Grafted(a, b, path, i), b, path + [j])
  {
    forall q | path + [j] <= q ensures |q| > |path| && q[|path|] == j {
      assert (path + [j])[|path|] == q[|path|];
    }
  }

  /** Values each sub-rule may take can be given to all of them at once. */
  lemma {:induction false} RealizeAll(rules: seq<Rule>, n: nat, wants: seq<bool>, mode: string, fold: Fold, path: seq<nat>)
    returns (h: Truth)
    requires n <= |rules| == |wants|
    requires forall i :: 0 <= i < n ==> !Empty(rules[i]) && Buildable(rules[i]) && Permits(Evaluate(rules[i], mode, fold), wants[i])
    ensures forall i :: 0 <= i < n ==> Matches(rules[i], mode, fold, h, path + [i]) == wants[i]
    decreases rules, 1, n
  {
    if n == 0 {
      h := (q: seq<nat>) => false;
    } else {
      var g := RealizeAll(rules, n - 1, wants, mode, fold, path);
      var f := Realize(rules[n - 1], wants[n - 1], mode, fold, path + [n - 1]);
      h := Grafted(f, g, path, n - 1);
      forall i | 0 <= i < n ensures Matches(rules[i], mode, fold, h, path + [i]) == wants[i] {
        GraftedAgrees(f, g, path, n - 1, i);
        MatchesFrame(rules[i], mode, fold, h, if i == n - 1 then f else g, path + [i]);
      }
    }
  }

  /** The analysis is exact: every answer it leaves open really occurs. */
  lemma {:induction false} Realize(rule: Rule, want: bool, mode: string, fold: Fold, path: seq<nat>) returns (h: Truth)
    requires !Empty(rule) && Buildable(rule) && Permits(Evaluate(rule, mode, fold), want)
    ensures Matches(rule, mode, fold, h, path) == want
    decreases rule, 0, 0
  {
    if rule.Default? {
      h := (q: seq<nat>) => want != rule.invert;
    } else {
      var wants := Wishes(rule, want, mode, fold);
      h := RealizeAll(rule.rules, |rule.rules|, wants, mode, fold, path);
      WishesSuffice(rule, want, mode, fold, h, path);
    }
  }

  /** What to ask of the sub-rules. */
  function Wish(m: Static, lean: bool): bool {
    match m case Always => true case Never => false case Unknown => lean
  }

  /** To have a conjunction true, or a disjunction false, all lean that way; the
      opposite needs the undecided ones to lean the other way. */
  function Wishes(rule: Rule, want: bool, mode: string, fold: Fold): (r: seq<bool>)
    requires rule.Logical?
    ensures |r| == |rule.rules|
    ensures forall i :: 0 <= i < |r| ==> r[i] == Wish(Evaluate(rule.rules[i], mode, fold), want != rule.invert)
  {
    seq(|rule.rules|, i requires 0 <= i < |rule.rules| => Wish(Evaluate(rule.rules[i], mode, fold), want != rule.invert))
  }

  lemma WishesSuffice(rule: Rule, want: bool, mode: string, fold: Fold, h: Truth, path: seq<nat>)
    requires rule.Logical? && Permits(Evaluate(rule, mode, fold), want)
    requires forall i :: 0 <= i < |rule.rules| ==>
               Matches(rule.rules[i], mode, fold, h, path + [i]) == Wish(Evaluate(rule.rules[i], mode, fold), want != rule.invert)
    ensures Matches(rule, mode, fold, h, path) == want
  {
    var all, lean := EvaluateAll(rule.rules, mode, fold), want != rule.invert;
    assert forall i :: 0 <= i < |all| ==> all[i] in all;
    match rule.mode
    case And =>
      if lean {
        assert Never !in all;
      } else {
        var i :| 0 <= i < |all| && all[i] != Always;
        assert !Matches(rule.rules[i], mode, fold, h, path + [i]);
      }
    case Or =>
      if lean {
        var i :| 0 <= i < |all| && all[i] != Never;
        assert Matches(rule.rules[i], mode, fold, h, path + [i]);
      } else {
        assert Always !in all;
      }
  }
}
