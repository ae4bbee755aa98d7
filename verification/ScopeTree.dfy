/** The tree of cleanup scopes (adapter/lifecycle.go). Scopes are named by
    their number in order of creation; a cleanup function is named by its number
    in order of registration, and running it appends that number to a log. */
module ScopeTree {
  import opened Common

  /** An element of a scope's cleanup list: a function registered by Add, or
      the closing of the scope of a started component. */
  datatype Entry = Leaf(id: nat) | Child(component: nat, scope: nat)

  /** `children` is None once Close has dropped the map. */
  datatype Scope = Scope(cancelled: bool, cleanups: seq<Entry>, children: Option<map<nat, nat>>)

  const DEAD := Scope(true, [], None)

  /** x is a itself or was created, through any number of scopes, inside a. */
  ghost predicate Under(parents: seq<nat>, a: nat, x: nat)
    requires x < |parents|
    decreases x
  {
    x == a || (parents[x] < x && Under(parents, a, parents[x]))
  }

  ghost predicate ScopeShape(s: Scope, parents: seq<nat>, x: nat) {
    && (forall i :: 0 <= i < |s.cleanups| && s.cleanups[i].Child? ==>
          var k := s.cleanups[i].scope; x < k < |parents| && parents[k] == x)
    && (forall i, j :: 0 <= i < j < |s.cleanups| && s.cleanups[i].Child? && s.cleanups[j].Child? ==>
          s.cleanups[i].scope != s.cleanups[j].scope)
  }

  ghost predicate Shape(scopes: seq<Scope>, parents: seq<nat>) {
    |scopes| == |parents| && forall x :: 0 <= x < |scopes| ==> ScopeShape(scopes[x], parents, x)
  }

  /** What closing runs, in order: for the entries from the last down to i. */
  ghost function PlanFrom(scopes: seq<Scope>, x: nat, i: nat): seq<nat>
    requires x < |scopes| && i <= |scopes[x].cleanups|
    decreases |scopes| - x, |scopes[x].cleanups| - i
  {
    if i == |scopes[x].cleanups| then []
    else
      PlanFrom(scopes, x, i + 1)
      + match scopes[x].cleanups[i]
        case Leaf(id) => [id]
        case Child(_, k) => if x < k < |scopes| then PlanFrom(scopes, k, 0) else []
  }

  ghost function Plan(scopes: seq<Scope>, x: nat): seq<nat>
    requires x < |scopes|
  {
    PlanFrom(scopes, x, 0)
  }

  /** The scopes closing x closes through entries i and later. */
  ghost function TreeFrom(scopes: seq<Scope>, x: nat, i: nat): set<nat>
    requires x < |scopes| && i <= |scopes[x].cleanups|
    decreases |scopes| - x, |scopes[x].cleanups| - i
  {
    if i == |scopes[x].cleanups| then {x}
    else
      TreeFrom(scopes, x, i + 1)
      + match scopes[x].cleanups[i]
        case Leaf(id) => {}
        case Child(_, k) => if x < k < |scopes| then TreeFrom(scopes, k, 0) else {}
  }

  ghost function Tree(scopes: seq<Scope>, x: nat): set<nat>
    requires x < |scopes|
  {
    TreeFrom(scopes, x, 0)
  }

  ghost function ClosedIn(scopes: seq<Scope>, tree: set<nat>): seq<Scope> {
    seq(|scopes|, i requires 0 <= i < |scopes| => if i in tree then DEAD else scopes[i])
  }

  lemma {:induction false} UnderIsLater(parents: seq<nat>, a: nat, x: nat)
    requires x < |parents| && Under(parents, a, x)
    ensures a <= x
    decreases x
  {
    if x != a {
      UnderIsLater(parents, a, parents[x]);
    }
  }

  lemma {:induction false} UnderChild(parents: seq<nat>, p: nat, k: nat, x: nat)
    requires k < |parents| && x < |parents| && parents[k] == p < k && Under(parents, k, x)
    ensures Under(parents, p, x)
    decreases x
  {
    if x != k {
      UnderChild(parents, p, k, parents[x]);
    }
  }

  /** Nothing lies inside two scopes of the same parent. */
  lemma {:induction false} SiblingsDisjoint(parents: seq<nat>, a: nat, b: nat, x: nat)
    requires a < |parents| && b < |parents| && x < |parents|
    requires a != b && parents[a] == parents[b] && parents[a] < a && parents[b] < b
    requires Under(parents, a, x)
    ensures !Under(parents, b, x)
    decreases x
  {
    if Under(parents, b, x) {
      if x == a {
        UnderIsLater(parents, b, parents[a]);
      } else if x == b {
        UnderIsLater(parents, a, parents[b]);
      } else {
        SiblingsDisjoint(parents, a, b, parents[x]);
      }
    }
  }

  /** Closing x reaches only scopes inside x: itself, or through an entry. */
  lemma {:induction false} TreeMember(scopes: seq<Scope>, parents: seq<nat>, x: nat, i: nat, y: nat)
    requires Shape(scopes, parents) && x < |scopes| && i <= |scopes[x].cleanups| && y in TreeFrom(scopes, x, i)
    ensures y < |scopes| && Under(parents, x, y)
    ensures y == x || exists j :: i <= j < |scopes[x].cleanups| && scopes[x].cleanups[j].Child?
                                  && Under(parents, scopes[x].cleanups[j].scope, y)
    decreases |scopes| - x, |scopes[x].cleanups| - i
  {
    assert ScopeShape(scopes[x], parents, x);
    if i < |scopes[x].cleanups| {
      if y in TreeFrom(scopes, x, i + 1) {
        TreeMember(scopes, parents, x, i + 1, y);
      } else {
        var k := scopes[x].cleanups[i].scope;
        TreeMember(scopes, parents, k, 0, y);
        UnderChild(parents, x, k, y);
      }
    }
  }

  /** What closing x does depends only on the scopes inside x. */
  lemma {:induction false} PlanFrame(scopes: seq<Scope>, other: seq<Scope>, parents: seq<nat>, x: nat, i: nat)
    requires Shape(scopes, parents) && |other| == |scopes| && x < |scopes| && i <= |scopes[x].cleanups|
    requires forall y :: 0 <= y < |scopes| && Under(parents, x, y) ==> other[y] == scopes[y]
    ensures other[x] == scopes[x]
    ensures PlanFrom(other, x, i) == PlanFrom(scopes, x, i) && TreeFrom(other, x, i) == TreeFrom(scopes, x, i)
    decreases |scopes| - x, |scopes[x].cleanups| - i
  {
    assert Under(parents, x, x);
    assert ScopeShape(scopes[x], parents, x);
    if i < |scopes[x].cleanups| {
      PlanFrame(scopes, other, parents, x, i + 1);
      if scopes[x].cleanups[i].Child? {
        var k := scopes[x].cleanups[i].scope;
        forall y | 0 <= y < |scopes| && Under(parents, k, y) ensures other[y] == scopes[y] {
          UnderChild(parents, x, k, y);
        }
        PlanFrame(scopes, other, parents, k, 0);
      }
    }
  }

  lemma ClosedShape(scopes: seq<Scope>, parents: seq<nat>, tree: set<nat>)
    requires Shape(scopes, parents)
    ensures Shape(ClosedIn(scopes, tree), parents)
  {
    forall x | 0 <= x < |scopes| ensures ScopeShape(ClosedIn(scopes, tree)[x], parents, x) {
      assert ScopeShape(scopes[x], parents, x);
    }
  }

  /** Entries i + 1 and later have been closed: the child of entry i is intact. */
  lemma ChildIntact(scopes: seq<Scope>, parents: seq<nat>, x: nat, i: nat)
    requires Shape(scopes, parents) && x < |scopes| && i < |scopes[x].cleanups| && scopes[x].cleanups[i].Child?
    ensures var k, now := scopes[x].cleanups[i].scope, ClosedIn(scopes, TreeFrom(scopes, x, i + 1));
            x < k < |scopes| && Plan(now, k) == Plan(scopes, k) && Tree(now, k) == Tree(scopes, k)
  {
    var k, closed := scopes[x].cleanups[i].scope, TreeFrom(scopes, x, i + 1);
    assert ScopeShape(scopes[x], parents, x);
    forall y | 0 <= y < |scopes| && Under(parents, k, y) ensures y !in closed {
      if y in closed {
        TreeMember(scopes, parents, x, i + 1, y);
        UnderIsLater(parents, k, y);
        var j :| i + 1 <= j < |scopes[x].cleanups| && scopes[x].cleanups[j].Child? && Under(parents, scopes[x].cleanups[j].scope, y);
        SiblingsDisjoint(parents, k, scopes[x].cleanups[j].scope, y);
      }
    }
    PlanFrame(scopes, ClosedIn(scopes, closed), parents, k, 0);
  }

  lemma ClosedTwice(scopes: seq<Scope>, a: set<nat>, b: set<nat>)
    ensures ClosedIn(ClosedIn(scopes, a), b) == ClosedIn(scopes, a + b)
  {}

  /* Every cleanup is in exactly one place. */

  /** `owners[l]` is the scope cleanup l was registered in. */
  ghost predicate LeafShape(s: Scope, owners: seq<nat>, x: nat) {
    && (forall i :: 0 <= i < |s.cleanups| && s.cleanups[i].Leaf? ==>
          s.cleanups[i].id < |owners| && owners[s.cleanups[i].id] == x)
    && (forall i, j :: 0 <= i < j < |s.cleanups| && s.cleanups[i].Leaf? && s.cleanups[j].Leaf? ==>
          s.cleanups[i].id != s.cleanups[j].id)
  }

  ghost predicate Owned(scopes: seq<Scope>, owners: seq<nat>) {
    && (forall x :: 0 <= x < |scopes| ==> LeafShape(scopes[x], owners, x))
    && (forall l :: 0 <= l < |owners| ==> owners[l] < |scopes|)
  }

  ghost predicate Registered(scopes: seq<Scope>, owners: seq<nat>, l: nat)
    requires l < |owners|
  {
    owners[l] < |scopes| && Leaf(l) in scopes[owners[l]].cleanups
  }

  /** Cleanup l has run, or is still registered where it was added, not both. */
  ghost predicate Placed(scopes: seq<Scope>, owners: seq<nat>, ran: seq<nat>, l: nat)
    requires l < |owners|
  {
    l in ran <==> !Registered(scopes, owners, l)
  }

  ghost predicate Accounted(scopes: seq<Scope>, owners: seq<nat>, ran: seq<nat>) {
    && Distinct(ran)
    && (forall l :: l in ran ==> l < |owners|)
    && (forall l :: 0 <= l < |owners| ==> Placed(scopes, owners, ran, l))
  }

  /** The children map and the cleanup list agree. */
  ghost predicate Agrees(s: Scope) {
    && (!s.cancelled ==> s.children.Some?)
    && (forall c, k :: Child(c, k) in s.cleanups <==> s.children.Some? && c in s.children.value && s.children.value[c] == k)
  }

  lemma {:induction false} PlanSource(scopes: seq<Scope>, parents: seq<nat>, owners: seq<nat>, x: nat, i: nat, l: nat)
    requires Shape(scopes, parents) && Owned(scopes, owners) && x < |scopes| && i <= |scopes[x].cleanups|
    requires l in PlanFrom(scopes, x, i)
    ensures l < |owners| && Registered(scopes, owners, l) && owners[l] in TreeFrom(scopes, x, i)
    ensures (exists j :: i <= j < |scopes[x].cleanups| && scopes[x].cleanups[j] == Leaf(l))
            || exists j :: i <= j < |scopes[x].cleanups| && scopes[x].cleanups[j].Child?
                           && Under(parents, scopes[x].cleanups[j].scope, owners[l])
    decreases |scopes| - x, |scopes[x].cleanups| - i
  {
    assert ScopeShape(scopes[x], parents, x) && LeafShape(scopes[x], owners, x);
    if i < |scopes[x].cleanups| {
      if l in PlanFrom(scopes, x, i + 1) {
        PlanSource(scopes, parents, owners, x, i + 1, l);
      } else if scopes[x].cleanups[i].Child? {
        var k := scopes[x].cleanups[i].scope;
        PlanSource(scopes, parents, owners, k, 0, l);
        TreeMember(scopes, parents, k, 0, owners[l]);
      } else {
        SelfInTree(scopes, x, i);
      }
    }
  }

  lemma {:induction false} SelfInTree(scopes: seq<Scope>, x: nat, i: nat)
    requires x < |scopes| && i <= |scopes[x].cleanups|
    ensures x in TreeFrom(scopes, x, i)
    decreases |scopes[x].cleanups| - i
  {
    if i < |scopes[x].cleanups| {
      SelfInTree(scopes, x, i + 1);
    }
  }

  /** Whatever is registered in a scope that closing reaches is run. */
  lemma {:induction false} PlanCovers(scopes: seq<Scope>, x: nat, i: nat, y: nat, j: nat)
    requires x < |scopes| && i <= |scopes[x].cleanups| && y in TreeFrom(scopes, x, i) && y < |scopes|
    requires j < |scopes[y].cleanups| && scopes[y].cleanups[j].Leaf? && (y == x ==> i <= j)
    ensures scopes[y].cleanups[j].id in PlanFrom(scopes, x, i)
    decreases |scopes| - x, |scopes[x].cleanups| - i
  {
    if i < |scopes[x].cleanups| && !(y == x && j == i) {
      if y in TreeFrom(scopes, x, i + 1) {
        PlanCovers(scopes, x, i + 1, y, j);
      } else {
        SelfInTree(scopes, x, i + 1);
        var k := scopes[x].cleanups[i].scope;
        PlanCovers(scopes, k, 0, y, j);
      }
    }
  }

  lemma DistinctConcat(a: seq<nat>, b: seq<nat>)
    requires Distinct(a) && Distinct(b) && forall l :: l in a ==> l !in b
    ensures Distinct(a + b)
  {
    forall i, j | 0 <= i < j < |a + b| ensures (a + b)[i] != (a + b)[j] {
      if i < |a| <= j {
        assert a[i] in a && b[j - |a|] in b;
      }
    }
  }

  /** Closing runs nothing twice. */
  lemma {:induction false} PlanDistinct(scopes: seq<Scope>, parents: seq<nat>, owners: seq<nat>, x: nat, i: nat)
    requires Shape(scopes, parents) && Owned(scopes, owners) && x < |scopes| && i <= |scopes[x].cleanups|
    ensures Distinct(PlanFrom(scopes, x, i))
    decreases |scopes| - x, |scopes[x].cleanups| - i
  {
    assert ScopeShape(scopes[x], parents, x) && LeafShape(scopes[x], owners, x);
    if i < |scopes[x].cleanups| {
      PlanDistinct(scopes, parents, owners, x, i + 1);
      if scopes[x].cleanups[i].Child? {
        PlanDistinct(scopes, parents, owners, scopes[x].cleanups[i].scope, 0);
      }
      var here := match scopes[x].cleanups[i] case Leaf(id) => [id] case Child(_, k) => Plan(scopes, k);
      forall l | l in PlanFrom(scopes, x, i + 1) ensures l !in here {
        PlanApart(scopes, parents, owners, x, i, l);
      }
      DistinctConcat(PlanFrom(scopes, x, i + 1), here);
    }
  }

  /** Entry i does not run l. */
  ghost predicate NotHere(scopes: seq<Scope>, x: nat, i: nat, l: nat)
    requires x < |scopes| && i < |scopes[x].cleanups|
  {
    match scopes[x].cleanups[i]
    case Leaf(id) => l != id
    case Child(_, k) => x < k < |scopes| ==> l !in Plan(scopes, k)
  }

  lemma PlanApart(scopes: seq<Scope>, parents: seq<nat>, owners: seq<nat>, x: nat, i: nat, l: nat)
    requires Shape(scopes, parents) && Owned(scopes, owners) && x < |scopes| && i < |scopes[x].cleanups|
    requires l in PlanFrom(scopes, x, i + 1)
    ensures NotHere(scopes, x, i, l)
  {
    assert ScopeShape(scopes[x], parents, x) && LeafShape(scopes[x], owners, x);
    PlanSource(scopes, parents, owners, x, i + 1, l);
    match scopes[x].cleanups[i]
    case Leaf(id) =>
      if j :| i + 1 <= j < |scopes[x].cleanups| && scopes[x].cleanups[j].Child?
              && Under(parents, scopes[x].cleanups[j].scope, owners[l])
      {
        UnderIsLater(parents, scopes[x].cleanups[j].scope, owners[l]);
      }
    case Child(_, k) =>
      if l in Plan(scopes, k) {
        PlanSource(scopes, parents, owners, k, 0, l);
        TreeMember(scopes, parents, k, 0, owners[l]);
        UnderIsLater(parents, k, owners[l]);
        var j :| i + 1 <= j < |scopes[x].cleanups| && scopes[x].cleanups[j].Child?
                 && Under(parents, scopes[x].cleanups[j].scope, owners[l]);
        SiblingsDisjoint(parents, k, scopes[x].cleanups[j].scope, owners[l]);
      }
  }

  /* The order, said forwards. */

  ghost function EntryPlan(scopes: seq<Scope>, x: nat, i: nat): seq<nat>
    requires x < |scopes| && i < |scopes[x].cleanups|
  {
    match scopes[x].cleanups[i]
    case Leaf(id) => [id]
    case Child(_, k) => if x < k < |scopes| then Plan(scopes, k) else []
  }

  /** What the first n entries run: entry n - 1 first, entry 0 last. */
  ghost function PlanUpTo(scopes: seq<Scope>, x: nat, n: nat): seq<nat>
    requires x < |scopes| && n <= |scopes[x].cleanups|
  {
    if n == 0 then [] else EntryPlan(scopes, x, n - 1) + PlanUpTo(scopes, x, n - 1)
  }

  lemma PlanStep(scopes: seq<Scope>, x: nat, i: nat)
    requires x < |scopes| && i < |scopes[x].cleanups|
    ensures PlanFrom(scopes, x, i) == PlanFrom(scopes, x, i + 1) + EntryPlan(scopes, x, i)
  {}

  lemma Regroup(a: seq<nat>, b: seq<nat>, c: seq<nat>, d: seq<nat>)
    ensures a + b + c + d == a + b + (c + d)
  {}

  /** Exact reverse registration order: all later entries run before entry i,
      all earlier ones after it, and a started component's whole scope runs at
      the place of its entry. */
  lemma {:induction false} ReverseOrder(scopes: seq<Scope>, x: nat, i: nat)
    requires x < |scopes| && i < |scopes[x].cleanups|
    ensures Plan(scopes, x) == PlanFrom(scopes, x, i + 1) + EntryPlan(scopes, x, i) + PlanUpTo(scopes, x, i)
    decreases i
  {
    PlanStep(scopes, x, i);
    var later, here := PlanFrom(scopes, x, i + 1), EntryPlan(scopes, x, i);
    if i > 0 {
      ReverseOrder(scopes, x, i - 1);
      Regroup(later, here, EntryPlan(scopes, x, i - 1), PlanUpTo(scopes, x, i - 1));
    } else {
      assert later + here + [] == later + here;
    }
  }
}
