/** Add, Start, Remove and Close on the scope tree (adapter/lifecycle.go), and
    every sequence of them. */
module ScopeForest {
  import opened Common
  import opened ScopeTree

  datatype Forest = Forest(scopes: seq<Scope>, parents: seq<nat>, owners: seq<nat>, ran: seq<nat>)

  ghost predicate Inv(f: Forest) {
    && Shape(f.scopes, f.parents)
    && Owned(f.scopes, f.owners)
    && Accounted(f.scopes, f.owners, f.ran)
    && forall x :: 0 <= x < |f.scopes| ==> Agrees(f.scopes[x])
  }

  /** The scope's context is done: it or a scope around it was closed. */
  predicate Cancelled(scopes: seq<Scope>, parents: seq<nat>, x: nat)
    requires x < |scopes| == |parents|
    decreases x
  {
    scopes[x].cancelled || (parents[x] < x && Cancelled(scopes, parents, parents[x]))
  }

  const ROOT := Forest([Scope(false, [], Some(map[]))], [0], [], [])

  /* What each operation does. */

  function Added(f: Forest, x: nat): Forest
    requires x < |f.scopes|
  {
    var s := f.scopes[x];
    f.(scopes := f.scopes[x := s.(cleanups := s.cleanups + [Leaf(|f.owners|)])], owners := f.owners + [x])
  }

  /** A component started for the first time gets a new scope, and its closing
      is registered now, at the end of the list. */
  function Opened(f: Forest, x: nat, component: nat): Forest
    requires x < |f.scopes| && f.scopes[x].children.Some?
  {
    var s, k := f.scopes[x], |f.scopes|;
    f.(scopes := f.scopes[x := Scope(s.cancelled, s.cleanups + [Child(component, k)], Some(s.children.value[component := k]))]
                 + [Scope(false, [], Some(map[]))],
       parents := f.parents + [x])
  }

  ghost function Closed(f: Forest, x: nat): Forest
    requires x < |f.scopes|
  {
    f.(scopes := ClosedIn(f.scopes, Tree(f.scopes, x)), ran := f.ran + Plan(f.scopes, x))
  }

  function Without(cleanups: seq<Entry>, i: nat): seq<Entry>
    requires i < |cleanups|
  {
    cleanups[..i] + cleanups[i + 1..]
  }

  function Detached(f: Forest, x: nat, component: nat, i: nat): Forest
    requires x < |f.scopes| && i < |f.scopes[x].cleanups| && f.scopes[x].children.Some?
  {
    var s := f.scopes[x];
    f.(scopes := f.scopes[x := Scope(s.cancelled, Without(s.cleanups, i), Some(s.children.value - {component}))])
  }

  /* Each keeps the invariants. */

  lemma AddedShape(f: Forest, x: nat)
    requires Shape(f.scopes, f.parents) && x < |f.scopes|
    ensures Shape(Added(f, x).scopes, f.parents)
  {
    forall y | 0 <= y < |f.scopes| ensures ScopeShape(Added(f, x).scopes[y], f.parents, y) {
      assert ScopeShape(f.scopes[y], f.parents, y);
    }
  }

  lemma AddedOwned(f: Forest, x: nat)
    requires Owned(f.scopes, f.owners) && x < |f.scopes|
    ensures Owned(Added(f, x).scopes, Added(f, x).owners)
  {
    var g := Added(f, x);
    forall y | 0 <= y < |f.scopes| ensures LeafShape(g.scopes[y], g.owners, y) {
      assert LeafShape(f.scopes[y], f.owners, y);
    }
  }

  lemma AddedAccounted(f: Forest, x: nat)
    requires Accounted(f.scopes, f.owners, f.ran) && x < |f.scopes|
    ensures Accounted(Added(f, x).scopes, Added(f, x).owners, f.ran)
  {
    var g := Added(f, x);
    forall l | 0 <= l < |g.owners| ensures Placed(g.scopes, g.owners, f.ran, l) {
      if l < |f.owners| {
        assert Placed(f.scopes, f.owners, f.ran, l);
      }
    }
  }

  lemma AddedInv(f: Forest, x: nat)
    requires Inv(f) && x < |f.scopes|
    ensures Inv(Added(f, x))
  {
    AddedShape(f, x);
    AddedOwned(f, x);
    AddedAccounted(f, x);
    forall y | 0 <= y < |f.scopes| ensures Agrees(Added(f, x).scopes[y]) {
      assert Agrees(f.scopes[y]);
    }
  }

  lemma OpenedShape(f: Forest, x: nat, component: nat)
    requires Shape(f.scopes, f.parents) && x < |f.scopes| && f.scopes[x].children.Some?
    ensures Shape(Opened(f, x, component).scopes, Opened(f, x, component).parents)
  {
    var g := Opened(f, x, component);
    forall y | 0 <= y < |g.scopes| ensures ScopeShape(g.scopes[y], g.parents, y) {
      if y < |f.scopes| {
        assert ScopeShape(f.scopes[y], f.parents, y);
      }
    }
  }

  lemma OpenedOwned(f: Forest, x: nat, component: nat)
    requires Owned(f.scopes, f.owners) && x < |f.scopes| && f.scopes[x].children.Some?
    ensures Owned(Opened(f, x, component).scopes, f.owners)
  {
    var g := Opened(f, x, component);
    forall y | 0 <= y < |g.scopes| ensures LeafShape(g.scopes[y], g.owners, y) {
      if y < |f.scopes| {
        assert LeafShape(f.scopes[y], f.owners, y);
      }
    }
  }

  lemma OpenedAccounted(f: Forest, x: nat, component: nat)
    requires Accounted(f.scopes, f.owners, f.ran) && Owned(f.scopes, f.owners)
    requires x < |f.scopes| && f.scopes[x].children.Some?
    ensures Accounted(Opened(f, x, component).scopes, f.owners, f.ran)
  {
    var g := Opened(f, x, component);
    forall l | 0 <= l < |g.owners| ensures Placed(g.scopes, g.owners, f.ran, l) {
      assert Placed(f.scopes, f.owners, f.ran, l);
    }
  }

  lemma OpenedInv(f: Forest, x: nat, component: nat)
    requires Inv(f) && x < |f.scopes| && f.scopes[x].children.Some? && component !in f.scopes[x].children.value
    ensures Inv(Opened(f, x, component))
  {
    OpenedShape(f, x, component);
    OpenedOwned(f, x, component);
    OpenedAccounted(f, x, component);
    var g := Opened(f, x, component);
    forall y | 0 <= y < |g.scopes| ensures Agrees(g.scopes[y]) {
      if y < |f.scopes| {
        assert Agrees(f.scopes[y]);
        if y == x {
          AgreesMore(f.scopes[x], component, |f.scopes|);
        }
      }
    }
  }

  lemma AgreesMore(s: Scope, component: nat, k: nat)
    requires Agrees(s) && s.children.Some? && component !in s.children.value
    ensures Agrees(Scope(s.cancelled, s.cleanups + [Child(component, k)], Some(s.children.value[component := k])))
  {
    var m := s.children.value[component := k];
    forall c, j ensures Child(c, j) in s.cleanups + [Child(component, k)] <==> c in m && m[c] == j {
      assert Child(c, j) in s.cleanups <==> c in s.children.value && s.children.value[c] == j;
    }
  }

  lemma DetachedShape(f: Forest, x: nat, component: nat, i: nat)
    requires Shape(f.scopes, f.parents) && x < |f.scopes| && i < |f.scopes[x].cleanups| && f.scopes[x].children.Some?
    ensures Shape(Detached(f, x, component, i).scopes, f.parents)
  {
    var g := Detached(f, x, component, i);
    forall y | 0 <= y < |f.scopes| ensures ScopeShape(g.scopes[y], f.parents, y) {
      assert ScopeShape(f.scopes[y], f.parents, y);
    }
  }

  lemma DetachedOwned(f: Forest, x: nat, component: nat, i: nat)
    requires Owned(f.scopes, f.owners) && x < |f.scopes| && i < |f.scopes[x].cleanups| && f.scopes[x].children.Some?
    ensures Owned(Detached(f, x, component, i).scopes, f.owners)
  {
    var g := Detached(f, x, component, i);
    forall y | 0 <= y < |f.scopes| ensures LeafShape(g.scopes[y], f.owners, y) {
      assert LeafShape(f.scopes[y], f.owners, y);
    }
  }

  lemma WithoutMembers(cleanups: seq<Entry>, i: nat, e: Entry)
    requires i < |cleanups| && e != cleanups[i]
    ensures e in Without(cleanups, i) <==> e in cleanups
  {
    if e in cleanups {
      var j :| 0 <= j < |cleanups| && cleanups[j] == e;
      if j < i {
        assert Without(cleanups, i)[j] == e;
      } else {
        assert Without(cleanups, i)[j - 1] == e;
      }
    }
  }

  lemma DetachedAccounted(f: Forest, x: nat, component: nat, i: nat)
    requires Accounted(f.scopes, f.owners, f.ran)
    requires x < |f.scopes| && i < |f.scopes[x].cleanups| && f.scopes[x].children.Some? && f.scopes[x].cleanups[i].Child?
    ensures Accounted(Detached(f, x, component, i).scopes, f.owners, f.ran)
  {
    var g := Detached(f, x, component, i);
    forall l | 0 <= l < |f.owners| ensures Placed(g.scopes, f.owners, f.ran, l) {
      assert Placed(f.scopes, f.owners, f.ran, l);
      WithoutMembers(f.scopes[x].cleanups, i, Leaf(l));
    }
  }

  lemma AgreesLess(s: Scope, parents: seq<nat>, x: nat, i: nat)
    requires Agrees(s) && ScopeShape(s, parents, x) && s.children.Some? && i < |s.cleanups| && s.cleanups[i].Child?
    ensures Agrees(Scope(s.cancelled, Without(s.cleanups, i), Some(s.children.value - {s.cleanups[i].component})))
  {
    var component, k := s.cleanups[i].component, s.cleanups[i].scope;
    var m, rest := s.children.value - {component}, Without(s.cleanups, i);
    assert Child(component, k) in s.cleanups;
    forall c, j ensures Child(c, j) in rest <==> c in m && m[c] == j {
      assert Child(c, j) in s.cleanups <==> c in s.children.value && s.children.value[c] == j;
      if Child(c, j) == s.cleanups[i] {
        forall a | 0 <= a < |rest| ensures rest[a] != Child(c, j) {
          assert rest[a] == s.cleanups[if a < i then a else a + 1];
        }
      } else {
        WithoutMembers(s.cleanups, i, Child(c, j));
      }
    }
  }

  lemma DetachedInv(f: Forest, x: nat, component: nat, i: nat)
    requires Inv(f) && x < |f.scopes| && f.scopes[x].children.Some? && i < |f.scopes[x].cleanups|
    requires f.scopes[x].cleanups[i].Child? && f.scopes[x].cleanups[i].component == component
    ensures Inv(Detached(f, x, component, i))
  {
    DetachedShape(f, x, component, i);
    DetachedOwned(f, x, component, i);
    DetachedAccounted(f, x, component, i);
    var g := Detached(f, x, component, i);
    forall y | 0 <= y < |f.scopes| ensures Agrees(g.scopes[y]) {
      assert Agrees(f.scopes[y]) && ScopeShape(f.scopes[y], f.parents, y);
      if y == x {
        AgreesLess(f.scopes[x], f.parents, x, i);
      }
    }
  }

  lemma ClosedOwned(f: Forest, x: nat)
    requires Owned(f.scopes, f.owners) && x < |f.scopes|
    ensures Owned(Closed(f, x).scopes, f.owners)
  {
    forall y | 0 <= y < |f.scopes| ensures LeafShape(Closed(f, x).scopes[y], f.owners, y) {
      assert LeafShape(f.scopes[y], f.owners, y);
    }
  }

  /** Exactly what closing runs stops being registered. */
  lemma ClosedPlaces(f: Forest, x: nat, l: nat)
    requires Inv(f) && x < |f.scopes| && l < |f.owners|
    ensures Placed(Closed(f, x).scopes, f.owners, Closed(f, x).ran, l)
    ensures l in Plan(f.scopes, x) ==> l !in f.ran
  {
    var tree := Tree(f.scopes, x);
    assert Placed(f.scopes, f.owners, f.ran, l);
    if l in Plan(f.scopes, x) {
      PlanSource(f.scopes, f.parents, f.owners, x, 0, l);
    } else if Registered(f.scopes, f.owners, l) && f.owners[l] in tree {
      var j :| 0 <= j < |f.scopes[f.owners[l]].cleanups| && f.scopes[f.owners[l]].cleanups[j] == Leaf(l);
      PlanCovers(f.scopes, x, 0, f.owners[l], j);
    }
  }

  lemma ClosedAccounted(f: Forest, x: nat)
    requires Inv(f) && x < |f.scopes|
    ensures Accounted(Closed(f, x).scopes, f.owners, Closed(f, x).ran)
  {
    PlanDistinct(f.scopes, f.parents, f.owners, x, 0);
    var plan := Plan(f.scopes, x);
    forall l | l in plan ensures l < |f.owners| && l !in f.ran {
      PlanSource(f.scopes, f.parents, f.owners, x, 0, l);
      ClosedPlaces(f, x, l);
    }
    DistinctConcat(f.ran, plan);
    forall l | 0 <= l < |f.owners| ensures Placed(Closed(f, x).scopes, f.owners, Closed(f, x).ran, l) {
      ClosedPlaces(f, x, l);
    }
  }

  lemma ClosedInv(f: Forest, x: nat)
    requires Inv(f) && x < |f.scopes|
    ensures Inv(Closed(f, x))
  {
    ClosedShape(f.scopes, f.parents, Tree(f.scopes, x));
    ClosedOwned(f, x);
    ClosedAccounted(f, x);
    forall y | 0 <= y < |f.scopes| ensures Agrees(Closed(f, x).scopes[y]) {
      assert Agrees(f.scopes[y]);
    }
  }

  /** Closing runs exactly the cleanups registered in the scopes it reaches. */
  lemma CloseRunsRegistered(f: Forest, x: nat, l: nat)
    requires Inv(f) && x < |f.scopes| && l < |f.owners|
    ensures l in Plan(f.scopes, x) <==> Registered(f.scopes, f.owners, l) && f.owners[l] in Tree(f.scopes, x)
  {
    if l in Plan(f.scopes, x) {
      PlanSource(f.scopes, f.parents, f.owners, x, 0, l);
    } else if Registered(f.scopes, f.owners, l) && f.owners[l] in Tree(f.scopes, x) {
      var j :| 0 <= j < |f.scopes[f.owners[l]].cleanups| && f.scopes[f.owners[l]].cleanups[j] == Leaf(l);
      PlanCovers(f.scopes, x, 0, f.owners[l], j);
    }
  }

  /* The operations as methods on the tree. */

  class Scopes {
    var scopes: seq<Scope>
    var parents: seq<nat>
    var owners: seq<nat>
    var ran: seq<nat>

    ghost function Abs(): Forest
      reads this
    {
      Forest(scopes, parents, owners, ran)
    }

    constructor ()
      ensures Abs() == ROOT && Inv(Abs())
    {
      scopes, parents, owners, ran := [Scope(false, [], Some(map[]))], [0], [], [];
    }

    /** Registers a cleanup, also in a scope already closed. */
    method Add(x: nat) returns (id: nat)
      requires Inv(Abs()) && x < |scopes|
      modifies this
      ensures Inv(Abs()) && Abs() == Added(old(Abs()), x) && id == |old(owners)|
    {
      AddedInv(Abs(), x);
      id := |owners|;
      scopes := scopes[x := scopes[x].(cleanups := scopes[x].cleanups + [Leaf(id)])];
      owners := owners + [x];
    }

    method ContextErr(x: nat) returns (done: bool)
      requires x < |scopes| == |parents|
      ensures done == Cancelled(scopes, parents, x)
    {
      var y: nat := x;
      while !scopes[y].cancelled
        invariant y <= x && Cancelled(scopes, parents, x) == Cancelled(scopes, parents, y)
        decreases y
      {
        if parents[y] >= y {
          return false;
        }
        y := parents[y];
      }
      return true;
    }

    /** Fails, changing nothing, exactly when the scope is done; otherwise gives
        the component's scope, made and registered at its first start only. */
    method Start(x: nat, component: nat) returns (child: Option<nat>)
      requires Inv(Abs()) && x < |scopes|
      modifies this
      ensures Inv(Abs())
      ensures child.None? <==> Cancelled(old(scopes), old(parents), x)
      ensures child.None? ==> Abs() == old(Abs())
      ensures child.Some? ==>
                var children := old(scopes)[x].children;
                && children.Some?
                && (if component in children.value
                    then Abs() == old(Abs()) && child.value == children.value[component]
                    else Abs() == Opened(old(Abs()), x, component) && child.value == |old(scopes)|)
    {
      var done := ContextErr(x);
      if done {
        return None;
      }
      assert Agrees(scopes[x]);
      var children := scopes[x].children.value;
      if component in children {
        return Some(children[component]);
      }
      OpenedInv(Abs(), x, component);
      var k := |scopes|;
      var s := scopes[x];
      scopes := scopes[x := Scope(s.cancelled, s.cleanups + [Child(component, k)], Some(children[component := k]))]
                + [Scope(false, [], Some(map[]))];
      parents := parents + [x];
      return Some(k);
    }

    /** Takes the component's entry out of the list and the map, and closes its
        scope; a component that was not started is ignored. */
    method Remove(x: nat, component: nat) returns (ghost at: nat)
      requires Inv(Abs()) && x < |scopes|
      modifies this
      ensures Inv(Abs())
      ensures var s := old(scopes)[x];
              if s.children.None? || component !in s.children.value then Abs() == old(Abs())
              else
                && at < |s.cleanups| && s.cleanups[at] == Child(component, s.children.value[component])
                && s.children.value[component] < |old(scopes)|
                && Abs() == Closed(Detached(old(Abs()), x, component, at), s.children.value[component])
    {
      var s := scopes[x];
      if s.children.None? || component !in s.children.value {
        return 0;
      }
      var k := s.children.value[component];
      assert Agrees(s) && Child(component, k) in s.cleanups;
      assert ScopeShape(s, parents, x);
      var i := 0;
      while s.cleanups[i] != Child(component, k)
        invariant 0 <= i < |s.cleanups|
        invariant Child(component, k) in s.cleanups[i..]
        decreases |s.cleanups| - i
      {
        i := i + 1;
      }
      at := i;
      DetachedInv(Abs(), x, component, i);
      scopes := scopes[x := Scope(s.cancelled, Without(s.cleanups, i), Some(s.children.value - {component}))];
      ClosedInv(Abs(), k);
      Close(k);
      assert Abs() == Closed(Detached(old(Abs()), x, component, i), k);
    }

    /** Cancels, empties, and runs what was registered in reverse order; the
        scopes of started components are closed on the way. */
    method Close(x: nat)
      requires Shape(scopes, parents) && x < |scopes|
      modifies `scopes, `ran
      ensures Abs() == Closed(old(Abs()), x)
      decreases |scopes| - x
    {
      var cleanups := scopes[x].cleanups;
      ghost var before := scopes;
      assert ScopeShape(before[x], parents, x);
      scopes := scopes[x := DEAD];
      assert scopes == ClosedIn(before, TreeFrom(before, x, |cleanups|));
      var i: nat := |cleanups|;
      while i > 0
        invariant i <= |cleanups| && |scopes| == |before|
        invariant scopes == ClosedIn(before, TreeFrom(before, x, i))
        invariant ran == old(ran) + PlanFrom(before, x, i)
      {
        i := i - 1;
        match cleanups[i]
        case Leaf(id) => ran := ran + [id];
        case Child(_, k) =>
          ChildIntact(before, parents, x, i);
          ClosedShape(before, parents, TreeFrom(before, x, i + 1));
          Close(k);
          ClosedTwice(before, TreeFrom(before, x, i + 1), Tree(before, k));
      }
    }
  }

  /* Every sequence of operations. */

  datatype Op = AddOp(x: nat) | StartOp(x: nat, component: nat) | RemoveOp(x: nat, component: nat, at: nat) | CloseOp(x: nat) | NoOp

  ghost predicate Step(f: Forest, op: Op, g: Forest) {
    match op
    case AddOp(x) => x < |f.scopes| && g == Added(f, x)
    case StartOp(x, component) =>
      && x < |f.scopes| == |f.parents| && !Cancelled(f.scopes, f.parents, x)
      && f.scopes[x].children.Some? && component !in f.scopes[x].children.value
      && g == Opened(f, x, component)
    case RemoveOp(x, component, at) =>
      && x < |f.scopes| && f.scopes[x].children.Some? && at < |f.scopes[x].cleanups|
      && f.scopes[x].cleanups[at].Child? && f.scopes[x].cleanups[at].component == component
      && f.scopes[x].cleanups[at].scope < |f.scopes|
      && g == Closed(Detached(f, x, component, at), f.scopes[x].cleanups[at].scope)
    case CloseOp(x) => x < |f.scopes| && g == Closed(f, x)
    case NoOp => g == f
  }

  ghost predicate Run(states: seq<Forest>, ops: seq<Op>) {
    && |states| == |ops| + 1 && states[0] == ROOT
    && forall i :: 0 <= i < |ops| ==> Step(states[i], ops[i], states[i + 1])
  }

  lemma StepInv(f: Forest, op: Op, g: Forest)
    requires Inv(f) && Step(f, op, g)
    ensures Inv(g) && f.ran <= g.ran && f.owners <= g.owners
  {
    match op
    case AddOp(x) => AddedInv(f, x);
    case StartOp(x, component) => OpenedInv(f, x, component);
    case RemoveOp(x, component, at) =>
      DetachedInv(f, x, component, at);
      ClosedInv(Detached(f, x, component, at), f.scopes[x].cleanups[at].scope);
    case CloseOp(x) => ClosedInv(f, x);
    case NoOp =>
  }

  /** Over any sequence of operations: no cleanup runs twice, none is lost (it
      has run, or is still registered where it was added), and in every scope
      the children map and the cleanup list agree. */
  lemma {:induction false} RunInv(states: seq<Forest>, ops: seq<Op>, i: nat)
    requires Run(states, ops) && i < |states|
    ensures Inv(states[i]) && Distinct(states[i].ran)
    decreases i
  {
    if i > 0 {
      RunInv(states, ops, i - 1);
      StepInv(states[i - 1], ops[i - 1], states[i]);
    }
  }

  /** What has run stays run: it is never registered again. */
  lemma {:induction false} RanStaysRun(states: seq<Forest>, ops: seq<Op>, i: nat, j: nat, l: nat)
    requires Run(states, ops) && i <= j < |states| && l in states[i].ran
    ensures l in states[j].ran && l < |states[j].owners| && !Registered(states[j].scopes, states[j].owners, l)
    decreases j
  {
    RunInv(states, ops, j);
    if i < j {
      RanStaysRun(states, ops, i, j - 1, l);
      RunInv(states, ops, j - 1);
      StepInv(states[j - 1], ops[j - 1], states[j]);
    }
    assert Placed(states[j].scopes, states[j].owners, states[j].ran, l);
  }
}
