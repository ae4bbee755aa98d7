/** Removal of chains that depend on an entry which could not be imported
    (adapter/provider/graph.go, FilterInvalidOutboundsWithSkipped). */
module ProviderFilter {
  import opened Graphs
  import opened ProviderOptions

  type Verdicts = map<string, bool>

  predicate Invalid(invalid: Verdicts, tag: string) {
    tag in invalid && invalid[tag]
  }

  /** The first outbound that carries each tag. */
  function ByTag(outbounds: seq<Outbound>): map<string, nat> {
    if outbounds == [] then
      map[]
    else
      var last := |outbounds| - 1;
      var rest := ByTag(outbounds[..last]);
      if outbounds[last].tag == "" || outbounds[last].tag in rest then rest
      else rest[outbounds[last].tag := last]
  }

  lemma {:induction false} ByTagIs(outbounds: seq<Outbound>)
    ensures forall t :: t in ByTag(outbounds) ==> FirstWith(outbounds, t, ByTag(outbounds)[t])
    ensures forall i :: 0 <= i < |outbounds| && outbounds[i].tag != "" ==> outbounds[i].tag in ByTag(outbounds)
  {
    if outbounds != [] {
      var front := outbounds[..|outbounds| - 1];
      ByTagIs(front);
      assert forall i :: 0 <= i < |front| ==> front[i] == outbounds[i];
    }
  }

  predicate FirstWith(outbounds: seq<Outbound>, tag: string, i: nat) {
    tag != "" && i < |outbounds| && outbounds[i].tag == tag && forall j :: 0 <= j < i ==> outbounds[j].tag != tag
  }

  function Targets(references: seq<string>, byTag: map<string, nat>): (r: seq<nat>)
    ensures forall j :: j in r <==> exists s :: s in references && s in byTag && byTag[s] == j
  {
    if references == [] then
      []
    else
      var rest := Targets(references[1..], byTag);
      assert references == [references[0]] + references[1..];
      if references[0] in byTag then [byTag[references[0]]] + rest else rest
  }

  /** Outbound i points at outbound j. */
  function DetourGraph(outbounds: seq<Outbound>): Graph<nat> {
    map i: nat | 0 <= i < |outbounds| :: Targets(Slots(outbounds[i].options), ByTag(outbounds))
  }

  /** An edge is a reference to the first outbound of that name. */
  lemma EdgeMeans(outbounds: seq<Outbound>, i: nat, j: nat)
    requires i < |outbounds|
    ensures Edge(DetourGraph(outbounds), i, j) <==> exists s :: s in Slots(outbounds[i].options) && FirstWith(outbounds, s, j)
  {
    var byTag := ByTag(outbounds);
    ByTagIs(outbounds);
    if s :| s in Slots(outbounds[i].options) && FirstWith(outbounds, s, j) {
      assert s in byTag && FirstWith(outbounds, s, byTag[s]);
    }
  }

  lemma FirstIsIndexed(outbounds: seq<Outbound>, tag: string, j: nat)
    requires FirstWith(outbounds, tag, j)
    ensures tag in ByTag(outbounds) && ByTag(outbounds)[tag] == j
  {
    ByTagIs(outbounds);
    assert FirstWith(outbounds, tag, ByTag(outbounds)[tag]);
  }

  ghost predicate Rejected(outbounds: seq<Outbound>, invalid: Verdicts, i: nat)
    requires i < |outbounds|
  {
    exists s :: s in Slots(outbounds[i].options) && s != "" && Invalid(invalid, s)
  }

  /** Following references from i one can meet an outbound that names an
      invalid tag, or go round in a cycle. */
  ghost predicate Doomed(outbounds: seq<Outbound>, invalid: Verdicts, i: nat) {
    exists e: nat ::
      e < |outbounds| && Reaches(DetourGraph(outbounds), i, e)
      && (Rejected(outbounds, invalid, e) || OnCycle(DetourGraph(outbounds), e))
  }

  lemma DoomedByItself(outbounds: seq<Outbound>, invalid: Verdicts, i: nat)
    requires i < |outbounds|
    requires Rejected(outbounds, invalid, i) || OnCycle(DetourGraph(outbounds), i)
    ensures Doomed(outbounds, invalid, i)
  {
    Single(DetourGraph(outbounds), i);
  }

  lemma DoomedByTarget(outbounds: seq<Outbound>, invalid: Verdicts, i: nat, j: nat)
    requires Edge(DetourGraph(outbounds), i, j) && Doomed(outbounds, invalid, j)
    ensures Doomed(outbounds, invalid, i)
  {
    var g := DetourGraph(outbounds);
    var e: nat :| e < |outbounds| && Reaches(g, j, e) && (Rejected(outbounds, invalid, e) || OnCycle(g, e));
    EdgeReaches(g, i, j);
    ReachesTransitive(g, i, j, e);
  }

  /** An outbound that names no invalid tag and whose every target is sound is
      sound: a cycle through it would run through one of its targets. */
  lemma SoundByTargets(outbounds: seq<Outbound>, invalid: Verdicts, i: nat)
    requires i < |outbounds| && !Rejected(outbounds, invalid, i)
    requires forall j :: Edge(DetourGraph(outbounds), i, j) ==> !Doomed(outbounds, invalid, j)
    ensures !Doomed(outbounds, invalid, i)
  {
    var g := DetourGraph(outbounds);
    forall e: nat | e < |outbounds| && Reaches(g, i, e)
      ensures !Rejected(outbounds, invalid, e) && !OnCycle(g, e)
    {
      var p :| Connects(g, p, i, e);
      if |p| >= 2 {
        FirstEdge(g, p, i, e);
        assert !Doomed(outbounds, invalid, p[1]);
      } else if OnCycle(g, e) {
        assert e == i;
        var q :| |q| >= 2 && Connects(g, q, i, i);
        FirstEdge(g, q, i, i);
        assert Doomed(outbounds, invalid, q[1]);
        assert false;
      }
    }
  }

  /** The elements below n whose flag is the wanted one, in order. */
  function Chosen<T>(s: seq<T>, flags: seq<bool>, wanted: bool, n: nat): seq<T>
    requires n <= |flags| == |s|
  {
    if n == 0 then [] else Chosen(s, flags, wanted, n - 1) + (if flags[n - 1] == wanted then [s[n - 1]] else [])
  }

  /** Where they stood. */
  function Flagged(flags: seq<bool>, wanted: bool, n: nat): seq<nat>
    requires n <= |flags|
  {
    if n == 0 then [] else Flagged(flags, wanted, n - 1) + (if flags[n - 1] == wanted then [n - 1] else [])
  }

  lemma {:induction false} ChosenAt<T>(s: seq<T>, flags: seq<bool>, wanted: bool, n: nat)
    requires n <= |flags| == |s|
    ensures |Flagged(flags, wanted, n)| == |Chosen(s, flags, wanted, n)|
    ensures forall k :: 0 <= k < |Flagged(flags, wanted, n)| ==>
              var i := Flagged(flags, wanted, n)[k]; i < n && flags[i] == wanted && Chosen(s, flags, wanted, n)[k] == s[i]
    ensures forall a, b :: 0 <= a < b < |Flagged(flags, wanted, n)| ==> Flagged(flags, wanted, n)[a] < Flagged(flags, wanted, n)[b]
  {
    if n > 0 {
      ChosenAt(s, flags, wanted, n - 1);
    }
  }

  lemma {:induction false} ChosenHas<T>(s: seq<T>, flags: seq<bool>, wanted: bool, n: nat, i: nat)
    requires i < n <= |flags| == |s| && flags[i] == wanted
    ensures i in Flagged(flags, wanted, n)
  {
    if i < n - 1 {
      ChosenHas(s, flags, wanted, n - 1, i);
    }
  }

  ghost function Dooms(outbounds: seq<Outbound>, invalid: Verdicts): seq<bool> {
    seq(|outbounds|, i requires 0 <= i < |outbounds| => Doomed(outbounds, invalid, i))
  }

  ghost function Kept(outbounds: seq<Outbound>, invalid: Verdicts): seq<Outbound> {
    Chosen(outbounds, Dooms(outbounds, invalid), false, |outbounds|)
  }

  ghost function Skipped(outbounds: seq<Outbound>, invalid: Verdicts): seq<Outbound> {
    Chosen(outbounds, Dooms(outbounds, invalid), true, |outbounds|)
  }

  function Names(outbounds: seq<Outbound>, invalid: Verdicts): set<string> {
    invalid.Keys + NamesOf(outbounds)
  }

  datatype Mark = Unseen | Visiting | Valid | InvalidMark

  /** The memo table of the recursive search. */
  class Search {
    const outbounds: seq<Outbound>
    const invalid: Verdicts
    const dependencies: seq<seq<string>>
    const byTag: map<string, nat>
    const states: array<Mark>

    ghost predicate Prepared()
      reads this
    {
      && states.Length == |outbounds| == |dependencies|
      && byTag == ByTag(outbounds)
      && forall i {:trigger dependencies[i]} :: 0 <= i < |outbounds| ==>
        forall d :: d in dependencies[i] <==> d in Slots(outbounds[i].options) && d != "" && d in Names(outbounds, invalid)
    }

    ghost predicate MarkOk(i: nat, stack: seq<nat>)
      reads this, states
      requires Prepared() && i < |outbounds|
    {
      && (states[i] == Visiting <==> i in stack)
      && (states[i] == Valid ==> !Doomed(outbounds, invalid, i))
      && (states[i] == InvalidMark ==> Doomed(outbounds, invalid, i))
    }

    ghost predicate MarksOk(stack: seq<nat>)
      reads this, states
      requires Prepared()
    {
      forall i :: 0 <= i < |outbounds| ==> MarkOk(i, stack)
    }

    ghost function UnseenSet(): set<nat>
      reads this, states
    {
      set i: nat | i < states.Length && states[i] == Unseen
    }

    /** The open calls form a path that ends at the next outbound asked. */
    ghost predicate Asks(stack: seq<nat>, index: nat)
      reads this
    {
      && index < |outbounds|
      && (forall k :: 0 <= k < |stack| ==> stack[k] < |outbounds|)
      && Path(DetourGraph(outbounds), stack + [index])
    }

    lemma NextAsk(stack: seq<nat>, index: nat, next: nat)
      requires Prepared() && Asks(stack, index) && Edge(DetourGraph(outbounds), index, next) && next < |outbounds|
      ensures Asks(stack + [index], next)
    {
      var p := stack + [index];
      var q := stack + [index] + [next];
      forall i | 0 <= i < |q| - 1 ensures Edge(DetourGraph(outbounds), q[i], q[i + 1]) {
        if i < |p| - 1 {
          assert Edge(DetourGraph(outbounds), p[i], p[i + 1]);
        }
      }
    }

    /** Meeting an outbound whose call is still open closes a cycle. */
    lemma OpenCallIsCycle(stack: seq<nat>, index: nat)
      requires Prepared() && Asks(stack, index) && index in stack
      ensures OnCycle(DetourGraph(outbounds), index)
    {
      var k :| 0 <= k < |stack| && stack[k] == index;
      var p := stack + [index];
      SubPath(DetourGraph(outbounds), p, k, |stack|);
      assert Connects(DetourGraph(outbounds), p[k..|stack| + 1], index, index);
    }

    lemma DependencyIsSlot(index: nat, k: nat)
      requires Prepared() && index < |outbounds| && k < |dependencies[index]|
      ensures var d := dependencies[index][k];
              && d != "" && d in Slots(outbounds[index].options)
              && (d in byTag ==> Edge(DetourGraph(outbounds), index, byTag[d]) && byTag[d] < |outbounds|)
    {
      var d := dependencies[index][k];
      assert d in dependencies[index];
      if d in byTag {
        ByTagIs(outbounds);
        assert FirstWith(outbounds, d, byTag[d]);
        EdgeMeans(outbounds, index, byTag[d]);
      }
    }

    ghost predicate AllSound(index: nat)
      reads this
      requires Prepared() && index < |outbounds|
    {
      forall k :: 0 <= k < |dependencies[index]| ==> DependencySound(dependencies[index][k])
    }

    lemma NamesNoInvalid(index: nat)
      requires Prepared() && index < |outbounds| && AllSound(index)
      ensures !Rejected(outbounds, invalid, index)
    {
      forall s | s in Slots(outbounds[index].options) && s != "" ensures !Invalid(invalid, s) {
        if s in Names(outbounds, invalid) {
          assert s in dependencies[index] && DependencySound(s);
        }
      }
    }

    lemma TargetSound(index: nat, j: nat)
      requires Prepared() && index < |outbounds| && AllSound(index) && Edge(DetourGraph(outbounds), index, j)
      ensures !Doomed(outbounds, invalid, j)
    {
      EdgeMeans(outbounds, index, j);
      var s :| s in Slots(outbounds[index].options) && FirstWith(outbounds, s, j);
      FirstIsIndexed(outbounds, s, j);
      assert outbounds[j].tag in Names(outbounds, invalid);
      assert s in dependencies[index];
      assert DependencySound(s);
    }

    /** Every reference was asked and found sound, so the outbound is sound. */
    lemma AllAsked(index: nat)
      requires Prepared() && index < |outbounds| && AllSound(index)
      ensures !Doomed(outbounds, invalid, index)
    {
      NamesNoInvalid(index);
      forall j: nat | Edge(DetourGraph(outbounds), index, j) ensures !Doomed(outbounds, invalid, j) {
        TargetSound(index, j);
      }
      SoundByTargets(outbounds, invalid, index);
    }

    ghost predicate DependencySound(d: string)
      reads this
    {
      !Invalid(invalid, d) && (d in byTag ==> !Doomed(outbounds, invalid, byTag[d]))
    }

    method IsValid(index: nat, ghost stack: seq<nat>) returns (valid: bool)
      requires Prepared() && Asks(stack, index) && MarksOk(stack)
      modifies states
      ensures MarksOk(stack)
      ensures valid == !Doomed(outbounds, invalid, index)
      ensures UnseenSet() <= old(UnseenSet())
      decreases UnseenSet(), 0
    {
      assert MarkOk(index, stack);
      match states[index]
      case Visiting =>
        OpenCallIsCycle(stack, index);
        DoomedByItself(outbounds, invalid, index);
        return false;
      case InvalidMark => return false;
      case Valid => return true;
      case Unseen =>
        states[index] := Visiting;
        ghost var open := stack + [index];
        ghost var unseen := UnseenSet();
        assert unseen < old(UnseenSet()) by { assert index in old(UnseenSet()) && index !in unseen; }
        assert MarksOk(open) by {
          forall i | 0 <= i < |outbounds| ensures MarkOk(i, open) {
            assert old(MarkOk(i, stack));
          }
        }
        valid := AskDependencies(index, stack);
        Finish(index, stack, if valid then Valid else InvalidMark);
    }

    method AskDependencies(index: nat, ghost stack: seq<nat>) returns (sound: bool)
      requires Prepared() && Asks(stack, index) && MarksOk(stack + [index])
      modifies states
      ensures MarksOk(stack + [index])
      ensures sound == !Doomed(outbounds, invalid, index)
      ensures UnseenSet() <= old(UnseenSet())
      decreases UnseenSet(), 1
    {
      for k := 0 to |dependencies[index]|
        invariant MarksOk(stack + [index])
        invariant UnseenSet() <= old(UnseenSet())
        invariant forall m :: 0 <= m < k ==> DependencySound(dependencies[index][m])
      {
        var dependency := dependencies[index][k];
        DependencyIsSlot(index, k);
        if Invalid(invalid, dependency) {
          assert Rejected(outbounds, invalid, index);
          DoomedByItself(outbounds, invalid, index);
          return false;
        }
        if dependency in byTag {
          NextAsk(stack, index, byTag[dependency]);
          var valid := IsValid(byTag[dependency], stack + [index]);
          if !valid {
            DoomedByTarget(outbounds, invalid, index, byTag[dependency]);
            return false;
          }
        }
      }
      AllAsked(index);
      return true;
    }

    /** The call is answered: the mark is final and the call no longer open. */
    method Finish(index: nat, ghost stack: seq<nat>, mark: Mark)
      requires Prepared() && index < |outbounds| && index !in stack
      requires MarksOk(stack + [index])
      requires mark == (if Doomed(outbounds, invalid, index) then InvalidMark else Valid)
      modifies states
      ensures MarksOk(stack)
      ensures UnseenSet() <= old(UnseenSet())
    {
      assert MarkOk(index, stack + [index]);
      states[index] := mark;
      forall i | 0 <= i < |outbounds| ensures MarkOk(i, stack) {
        assert old(MarkOk(i, stack + [index]));
      }
    }

    constructor (outbounds: seq<Outbound>, invalid: Verdicts, dependencies: seq<seq<string>>, byTag: map<string, nat>)
      requires |dependencies| == |outbounds| && byTag == ByTag(outbounds)
      requires forall i {:trigger dependencies[i]} :: 0 <= i < |outbounds| ==>
        forall d :: d in dependencies[i] <==> d in Slots(outbounds[i].options) && d != "" && d in Names(outbounds, invalid)
      ensures Prepared() && MarksOk([]) && this.outbounds == outbounds && this.invalid == invalid
      ensures fresh(states)
    {
      this.outbounds, this.invalid, this.dependencies, this.byTag := outbounds, invalid, dependencies, byTag;
      states := new Mark[|outbounds|](_ => Unseen);
    }
  }

  method IndexTags(outbounds: seq<Outbound>, invalid: Verdicts)
    returns (knownTags: TagMap, byTag: map<string, nat>)
    ensures knownTags == Identity(Names(outbounds, invalid))
    ensures byTag == ByTag(outbounds)
  {
    knownTags, byTag := Identity(invalid.Keys), map[];
    for i := 0 to |outbounds|
      invariant knownTags == Identity(Names(outbounds[..i], invalid))
      invariant byTag == ByTag(outbounds[..i])
    {
      var tag := outbounds[i].tag;
      ByTagStep(outbounds, i);
      NamesStep(outbounds, i);
      if tag != "" {
        knownTags := knownTags[tag := tag];
        if tag !in byTag {
          byTag := byTag[tag := i];
        }
      }
    }
    assert outbounds[..|outbounds|] == outbounds;
  }

  function Indexed(byTag: map<string, nat>, tag: string, i: nat): map<string, nat> {
    if tag == "" || tag in byTag then byTag else byTag[tag := i]
  }

  lemma ByTagStep(outbounds: seq<Outbound>, i: nat)
    requires i < |outbounds|
    ensures ByTag(outbounds[..i + 1]) == Indexed(ByTag(outbounds[..i]), outbounds[i].tag, i)
  {
    assert outbounds[..i + 1][..i] == outbounds[..i];
  }

  method CollectReferences(outbounds: seq<Outbound>, invalid: Verdicts, knownTags: TagMap)
    returns (dependencies: seq<seq<string>>)
    requires knownTags == Identity(Names(outbounds, invalid))
    ensures |dependencies| == |outbounds|
    ensures forall i {:trigger dependencies[i]} :: 0 <= i < |outbounds| ==>
      forall d :: d in dependencies[i] <==> d in Slots(outbounds[i].options) && d != "" && d in Names(outbounds, invalid)
  {
    dependencies := [];
    for i := 0 to |outbounds|
      invariant |dependencies| == i
      invariant forall j {:trigger dependencies[j]} :: 0 <= j < i ==>
        forall d :: d in dependencies[j] <==> d in Slots(outbounds[j].options) && d != "" && d in Names(outbounds, invalid)
    {
      var _, references := RewriteOutboundReferences(outbounds[i].options, knownTags);
      IdentityRewritesNothing(outbounds[i].options, Names(outbounds, invalid));
      dependencies := dependencies + [references];
    }
  }

  /** Keeps, in order, exactly the outbounds from which neither an invalid tag
      nor a cycle can be reached; the others are skipped, in order. */
  method FilterInvalidOutboundsWithSkipped(outbounds: seq<Outbound>, invalid: Verdicts)
    returns (result: seq<Outbound>, skipped: seq<Outbound>)
    ensures result == Kept(outbounds, invalid)
    ensures skipped == Skipped(outbounds, invalid)
  {
    var knownTags, byTag := IndexTags(outbounds, invalid);
    var dependencies := CollectReferences(outbounds, invalid, knownTags);
    var search := new Search(outbounds, invalid, dependencies, byTag);
    ghost var dooms := Dooms(outbounds, invalid);
    result, skipped := [], [];
    for i := 0 to |outbounds|
      invariant search.Prepared() && search.MarksOk([])
      invariant search.outbounds == outbounds && search.invalid == invalid && fresh(search.states)
      invariant result == Chosen(outbounds, dooms, false, i)
      invariant skipped == Chosen(outbounds, dooms, true, i)
    {
      Single(DetourGraph(outbounds), i);
      assert [] + [i] == [i];
      var valid := search.IsValid(i, []);
      if valid {
        result := result + [outbounds[i]];
      } else {
        skipped := skipped + [outbounds[i]];
      }
    }
  }
}
