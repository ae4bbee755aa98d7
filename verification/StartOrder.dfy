/** Starting outbounds after what they depend on, and the diagnosis when that
    is impossible (adapter/outbound/manager.go, startOutbounds, lintOutbound). */
module StartOrder {
  import opened Common
  import opened Graphs
  import opened OutboundManager

  function Tags(outbounds: seq<Handle>): set<string> {
    set k | 0 <= k < |outbounds| :: outbounds[k].tag
  }

  lemma TagAt(outbounds: seq<Handle>, k: nat)
    requires k < |outbounds|
    ensures outbounds[k].tag in Tags(outbounds)
  {}

  /** The first outbound with a tag. */
  function Find(outbounds: seq<Handle>, tag: string): (r: Option<Handle>)
    ensures r.Some? <==> tag in Tags(outbounds)
    ensures r.Some? ==> r.value in outbounds && r.value.tag == tag
  {
    if outbounds == [] then None
    else
      assert outbounds == [outbounds[0]] + outbounds[1..];
      assert forall k :: 0 <= k < |outbounds[1..]| ==> outbounds[1..][k] == outbounds[k + 1];
      assert tag in Tags(outbounds) && outbounds[0].tag != tag ==> tag in Tags(outbounds[1..]) by {
        if tag in Tags(outbounds) && outbounds[0].tag != tag {
          var k :| 0 <= k < |outbounds| && outbounds[k].tag == tag;
          assert outbounds[1..][k - 1].tag == tag;
        }
      }
      if outbounds[0].tag == tag then Some(outbounds[0]) else Find(outbounds[1..], tag)
  }

  /** Who depends on whom. */
  function DependencyGraph(outbounds: seq<Handle>): Graph<string> {
    map t | t in Tags(outbounds) :: Find(outbounds, t).value.dependencies
  }

  lemma {:induction false} FirstIsFound(outbounds: seq<Handle>, k: nat)
    requires k < |outbounds| && forall i :: 0 <= i < k ==> outbounds[i].tag != outbounds[k].tag
    ensures Find(outbounds, outbounds[k].tag) == Some(outbounds[k])
  {
    if k > 0 {
      FirstIsFound(outbounds[1..], k - 1);
    }
  }

  /** Every dependency is one of the outbounds. */
  ghost predicate Complete(outbounds: seq<Handle>) {
    forall k, d :: 0 <= k < |outbounds| && d in outbounds[k].dependencies ==> d in Tags(outbounds)
  }

  /** Starts in this order: outbounds of the list, each tag once, everything
      after all of its dependencies. */
  ghost predicate StartedAfter(order: seq<Handle>, k: nat)
    requires k < |order|
  {
    forall d :: d in order[k].dependencies ==> d in Tags(order[..k])
  }

  ghost predicate GoodOrder(outbounds: seq<Handle>, order: seq<Handle>) {
    && DistinctTags(order)
    && (forall k :: 0 <= k < |order| ==> order[k] in outbounds)
    && (forall k :: 0 <= k < |order| ==> StartedAfter(order, k))
  }

  datatype StartError =
    | StartFailed(tag: string)
    | Circular(path: seq<string>, tag: string)
    | Missing(dependency: string, outbound: string)
    | NoneLeft

  /** What the message says is so: the path follows dependencies and leads back
      into itself, or the outbound names a dependency that is not there. */
  ghost predicate Diagnosed(outbounds: seq<Handle>, e: StartError)
    requires e.Circular? || e.Missing?
  {
    match e
    case Circular(path, tag) =>
      && |path| > 0 && Path(DependencyGraph(outbounds), path + [tag]) && tag in path
    case Missing(dependency, outbound) =>
      && dependency !in Tags(outbounds) && Edge(DependencyGraph(outbounds), outbound, dependency)
  }

  lemma DiagnosisIsReal(outbounds: seq<Handle>, e: StartError)
    requires (e.Circular? || e.Missing?) && Diagnosed(outbounds, e)
    ensures e.Circular? ==> OnCycle(DependencyGraph(outbounds), e.tag)
    ensures !(Complete(outbounds) && Acyclic(DependencyGraph(outbounds)))
  {
    var g := DependencyGraph(outbounds);
    match e
    case Circular(path, tag) =>
      var k :| 0 <= k < |path| && path[k] == tag;
      var p := path + [tag];
      SubPath(g, p, k, |path|);
      var loop := p[k..|path| + 1];
      assert p[k] == tag && p[|path|] == tag && |loop| >= 2;
      assert Connects(g, loop, tag, tag);
      assert OnCycle(g, tag);
    case Missing(dependency, outbound) =>
      var h := Find(outbounds, outbound).value;
      var k :| 0 <= k < |outbounds| && outbounds[k] == h;
      assert dependency in outbounds[k].dependencies;
  }

  lemma TagsStep(order: seq<Handle>, h: Handle)
    ensures Tags(order + [h]) == Tags(order) + {h.tag}
  {
    assert (order + [h])[|order|] == h;
    forall t | t in Tags(order) ensures t in Tags(order + [h]) {
      var k :| 0 <= k < |order| && order[k].tag == t;
      assert (order + [h])[k].tag == t;
    }
  }

  lemma GoodStep(outbounds: seq<Handle>, order: seq<Handle>, h: Handle)
    requires GoodOrder(outbounds, order) && h in outbounds && h.tag !in Tags(order)
    requires forall d :: d in h.dependencies ==> d in Tags(order)
    ensures GoodOrder(outbounds, order + [h])
  {
    var longer := order + [h];
    forall k | 0 <= k < |longer| ensures StartedAfter(longer, k) {
      if k < |order| {
        assert StartedAfter(order, k);
        assert longer[..k] == order[..k];
      } else {
        assert longer[..k] == order;
      }
    }
    forall i, j | 0 <= i < j < |longer| ensures longer[i].tag != longer[j].tag {
      if j == |order| {
        TagAt(order, i);
      }
    }
  }

  /** Distinct tags are as many as there are outbounds. */
  lemma {:induction false} TagsCount(outbounds: seq<Handle>)
    requires DistinctTags(outbounds)
    ensures |Tags(outbounds)| == |outbounds|
  {
    if outbounds == [] {
      assert Tags(outbounds) == {};
    } else {
      var last := |outbounds| - 1;
      assert outbounds == outbounds[..last] + [outbounds[last]];
      TagsStep(outbounds[..last], outbounds[last]);
      TagsCount(outbounds[..last]);
      forall k | 0 <= k < last ensures outbounds[..last][k].tag != outbounds[last].tag {}
    }
  }

  lemma {:induction false} FewerTags(outbounds: seq<Handle>)
    ensures |Tags(outbounds)| <= |outbounds|
    ensures |Tags(outbounds)| == |outbounds| ==> DistinctTags(outbounds)
  {
    if outbounds == [] {
      assert Tags(outbounds) == {};
    } else {
      var last := |outbounds| - 1;
      var front := outbounds[..last];
      assert outbounds == front + [outbounds[last]];
      TagsStep(front, outbounds[last]);
      FewerTags(front);
      if |Tags(outbounds)| == |outbounds| {
        forall i, j | 0 <= i < j < |outbounds| ensures outbounds[i].tag != outbounds[j].tag {
          if j == last {
            assert front[i].tag in Tags(front);
          } else {
            assert front[i].tag != front[j].tag;
          }
        }
      }
    }
  }

  lemma SubsetTags(outbounds: seq<Handle>, order: seq<Handle>)
    requires GoodOrder(outbounds, order)
    ensures Tags(order) <= Tags(outbounds)
  {
    forall t | t in Tags(order) ensures t in Tags(outbounds) {
      var k :| 0 <= k < |order| && order[k].tag == t;
      var m :| 0 <= m < |outbounds| && outbounds[m] == order[k];
      TagAt(outbounds, m);
    }
  }

  /** No more starts than outbounds, and as many only when all are started. */
  lemma OrderBound(outbounds: seq<Handle>, order: seq<Handle>)
    requires GoodOrder(outbounds, order)
    ensures |Tags(order)| == |order| <= |Tags(outbounds)|
    ensures |order| == |outbounds| ==> Tags(order) == Tags(outbounds) && DistinctTags(outbounds)
  {
    FewerTags(outbounds);
    TagsCount(order);
    SubsetTags(outbounds, order);
    assert |Tags(outbounds) - Tags(order)| == |Tags(outbounds)| - |Tags(order)|;
    if |order| == |outbounds| {
      SubsetOfSameSize(Tags(order), Tags(outbounds));
    }
  }

  lemma NoneFails(outbounds: seq<Handle>, order: seq<Handle>, fails: set<string>)
    requires Tags(order) == Tags(outbounds) && forall h :: h in order ==> h.tag !in fails
    ensures fails !! Tags(outbounds)
  {
    forall t | t in Tags(outbounds) ensures t !in fails {
      var k :| 0 <= k < |order| && order[k].tag == t;
      assert order[k] in order;
    }
  }

  lemma SubsetOfSameSize(small: set<string>, large: set<string>)
    requires small <= large && |small| == |large|
    ensures small == large
  {
    assert |large - small| == |large| - |small|;
  }

  /** A full start order means nothing was missing and nothing circular. */
  lemma FullOrder(outbounds: seq<Handle>, order: seq<Handle>)
    requires DistinctTags(outbounds) && GoodOrder(outbounds, order) && Tags(order) == Tags(outbounds)
    ensures Complete(outbounds) && Acyclic(DependencyGraph(outbounds))
  {
    forall k, d | 0 <= k < |outbounds| && d in outbounds[k].dependencies ensures d in Tags(outbounds) {
      var m := Rank(order, outbounds[k].tag);
      SameHandle(outbounds, order[m], outbounds[k]);
      assert StartedAfter(order, m);
      var _ := PrefixTag(order, m, d);
    }
    var g := DependencyGraph(outbounds);
    var rank := t => Rank(order, t) as int;
    forall u, v | Edge(g, u, v) ensures rank(v) < rank(u) {
      RankFallsHere(outbounds, order, u, v);
    }
    RankedIsAcyclic(g, rank);
  }

  function Rank(order: seq<Handle>, tag: string): (r: nat)
    ensures tag in Tags(order) ==> r < |order| && order[r].tag == tag
  {
    var tags := seq(|order|, k requires 0 <= k < |order| => order[k].tag);
    assert tag in Tags(order) ==> tag in tags by {
      if tag in Tags(order) {
        var k :| 0 <= k < |order| && order[k].tag == tag;
        assert tags[k] == tag;
      }
    }
    IndexOf(tags, tag)
  }

  lemma SameHandle(outbounds: seq<Handle>, a: Handle, b: Handle)
    requires DistinctTags(outbounds) && a in outbounds && b in outbounds && a.tag == b.tag
    ensures a == b
  {
    var i :| 0 <= i < |outbounds| && outbounds[i] == a;
    var j :| 0 <= j < |outbounds| && outbounds[j] == b;
  }

  lemma PrefixTag(order: seq<Handle>, m: nat, d: string) returns (k: nat)
    requires m <= |order| && d in Tags(order[..m])
    ensures k < m && order[k].tag == d && d in Tags(order)
  {
    k :| 0 <= k < m && order[..m][k].tag == d;
    TagAt(order, k);
  }

  lemma RankFallsHere(outbounds: seq<Handle>, order: seq<Handle>, u: string, v: string)
    requires DistinctTags(outbounds) && GoodOrder(outbounds, order) && Tags(order) == Tags(outbounds)
    requires Edge(DependencyGraph(outbounds), u, v)
    ensures Rank(order, v) < Rank(order, u)
  {
    var m := Rank(order, u);
    SameHandle(outbounds, order[m], Find(outbounds, u).value);
    assert StartedAfter(order, m);
    var k := PrefixTag(order, m, v);
    var r := Rank(order, v);
    assert r == k;
  }

  /** Some order starts an outbound for every tag, each after its dependencies. */
  ghost predicate Startable(outbounds: seq<Handle>) {
    exists order: seq<Handle> :: GoodOrder(outbounds, order) && Tags(order) == Tags(outbounds)
  }

  /** Two outbounds of one tag and nothing else wrong: every tag is started, and
      the program then looks for an outbound that was not. */
  lemma RepeatedTagHappens(a: Handle, b: Handle)
    requires a.tag == b.tag && a.dependencies == []
    ensures !DistinctTags([a, b]) && Startable([a, b])
  {
    var outbounds, order := [a, b], [a];
    assert outbounds[0].tag == outbounds[1].tag;
    assert GoodOrder(outbounds, order);
    assert Tags(order) == {a.tag} by {
      assert order[0].tag == a.tag;
    }
    assert Tags(outbounds) == {a.tag} by {
      assert outbounds[0].tag == a.tag;
    }
  }

  /* The algorithm. */

  method Ready(started: set<string>, outbound: Handle) returns (ready: bool)
    ensures ready <==> forall d :: d in outbound.dependencies ==> d in started
  {
    for i := 0 to |outbound.dependencies|
      invariant forall k :: 0 <= k < i ==> outbound.dependencies[k] in started
    {
      if outbound.dependencies[i] !in started {
        return false;
      }
    }
    return true;
  }

  /** Every outbound not yet started waits for one that is not started. */
  ghost predicate Blocked(outbounds: seq<Handle>, started: set<string>) {
    forall k :: 0 <= k < |outbounds| && outbounds[k].tag !in started ==> Waits(outbounds[k], started)
  }

  ghost predicate Waits(outbound: Handle, started: set<string>) {
    exists d :: d in outbound.dependencies && d !in started
  }

  /** When everyone left waits for one that is not started, no order starts more. */
  lemma BlockedForGood(outbounds: seq<Handle>, started: set<string>, order: seq<Handle>, k: nat)
    requires Blocked(outbounds, started) && GoodOrder(outbounds, order) && k < |order|
    ensures order[k].tag in started
    decreases k
  {
    forall m | 0 <= m < k ensures order[m].tag in started {
      BlockedForGood(outbounds, started, order, m);
    }
    assert StartedAfter(order, k);
    forall d | d in order[k].dependencies ensures d in started {
      var m := PrefixTag(order, k, d);
    }
    var i :| 0 <= i < |outbounds| && outbounds[i] == order[k];
  }

  lemma BlockedStartable(outbounds: seq<Handle>, started: set<string>)
    requires Blocked(outbounds, started) && Startable(outbounds)
    ensures Tags(outbounds) <= started
  {
    var order: seq<Handle> :| GoodOrder(outbounds, order) && Tags(order) == Tags(outbounds);
    forall t | t in Tags(outbounds) ensures t in started {
      var k :| 0 <= k < |order| && order[k].tag == t;
      BlockedForGood(outbounds, started, order, k);
    }
  }

  /** The last start is that of the tag, and it is the only one to fail beside those allowed. */
  ghost predicate FailsLast(order: seq<Handle>, fails: set<string>, tag: string, allowed: seq<Handle>) {
    && order != [] && order[|order| - 1].tag == tag && tag in fails
    && forall h :: h in order[..|order| - 1] ==> h in allowed || h.tag !in fails
  }

  /** One sweep over the list. */
  method Sweep(outbounds: seq<Handle>, fails: set<string>, start: seq<Handle>)
    returns (order: seq<Handle>, progress: bool, failed: Option<string>)
    requires GoodOrder(outbounds, start)
    ensures GoodOrder(outbounds, order) && start <= order
    ensures failed.Some? ==> failed.value in fails && failed.value in Tags(outbounds)
    ensures failed.Some? ==> FailsLast(order, fails, failed.value, start)
    ensures failed.None? ==> forall h :: h in order ==> h in start || h.tag !in fails
    ensures failed.None? ==> (progress <==> |order| > |start|)
    ensures failed.None? && !progress ==> Blocked(outbounds, Tags(order))
  {
    order, progress, failed := start, false, None;
    for i := 0 to |outbounds|
      invariant GoodOrder(outbounds, order) && start <= order
      invariant forall h :: h in order ==> h in start || h.tag !in fails
      invariant progress <==> |order| > |start|
      invariant !progress ==> forall k :: 0 <= k < i && outbounds[k].tag !in Tags(order) ==> Waits(outbounds[k], Tags(order))
    {
      var outbound := outbounds[i];
      if outbound.tag !in Tags(order) {
        var ready := Ready(Tags(order), outbound);
        if ready {
          GoodStep(outbounds, order, outbound);
          ghost var earlier := order;
          order, progress := order + [outbound], true;
          if outbound.tag in fails {
            TagAt(outbounds, i);
            assert order[..|order| - 1] == earlier;
            return order, progress, Some(outbound.tag);
          }
        }
      }
    }
  }

  method FirstUnstarted(names: seq<string>, started: set<string>) returns (r: string)
    requires exists d :: d in names && d !in started
    ensures r in names && r !in started
  {
    for i := 0 to |names|
      invariant forall k :: 0 <= k < i ==> names[k] in started
    {
      if names[i] !in started {
        return names[i];
      }
    }
    assert false;
  }

  function Members(names: seq<string>): set<string> {
    set n | n in names
  }

  /** Follows unstarted dependencies until one repeats or is missing. */
  method Lint(outbounds: seq<Handle>, started: set<string>, tree: seq<string>, current: Handle) returns (e: StartError)
    requires Blocked(outbounds, started)
    requires |tree| > 0 && tree[|tree| - 1] == current.tag && Find(outbounds, current.tag) == Some(current)
    requires current.tag !in started
    requires Path(DependencyGraph(outbounds), tree)
    requires forall i, j :: 0 <= i < j < |tree| ==> tree[i] != tree[j]
    requires forall i :: 0 <= i < |tree| ==> tree[i] in Tags(outbounds)
    ensures (e.Circular? || e.Missing?) && Diagnosed(outbounds, e)
    decreases Tags(outbounds) - Members(tree)
  {
    var at :| 0 <= at < |outbounds| && outbounds[at] == current;
    assert Waits(outbounds[at], started);
    var problem := FirstUnstarted(current.dependencies, started);
    var longer := tree + [problem];
    forall i | 0 <= i < |longer| - 1 ensures Edge(DependencyGraph(outbounds), longer[i], longer[i + 1]) {
      if i < |tree| - 1 {
        assert Edge(DependencyGraph(outbounds), tree[i], tree[i + 1]);
      }
    }
    if problem in tree {
      return Circular(tree, problem);
    }
    var next := Find(outbounds, problem);
    if next.None? {
      return Missing(problem, current.tag);
    }
    assert Members(longer) == Members(tree) + {problem};
    e := Lint(outbounds, started, longer, next.value);
  }

  /** The diagnosis starts at the first outbound not started. When every tag is
      started there is none, and the program fails on the missing outbound. */
  method Diagnose(outbounds: seq<Handle>, order: seq<Handle>) returns (e: StartError)
    requires GoodOrder(outbounds, order) && Blocked(outbounds, Tags(order))
    ensures !e.StartFailed?
    ensures e.NoneLeft? <==> Tags(order) == Tags(outbounds)
    ensures !e.NoneLeft? ==> Diagnosed(outbounds, e)
  {
    var i := 0;
    while i < |outbounds| && outbounds[i].tag in Tags(order)
      invariant 0 <= i <= |outbounds|
      invariant forall k :: 0 <= k < i ==> outbounds[k].tag in Tags(order)
    {
      i := i + 1;
    }
    if i == |outbounds| {
      SubsetTags(outbounds, order);
      return NoneLeft;
    }
    TagAt(outbounds, i);
    FirstIsFound(outbounds, i);
    e := Lint(outbounds, Tags(order), [outbounds[i].tag], outbounds[i]);
  }

  /** Succeeds exactly when no tag repeats, every dependency is there, none is
      circular and every start succeeds; each outbound is then started once,
      after all its dependencies. A failure names a start that failed, a real
      cycle, or a dependency that is really missing. With a repeated tag it looks,
      once every tag is started, for an outbound that is not there. */
  method StartOutbounds(outbounds: seq<Handle>, fails: set<string>)
    returns (order: seq<Handle>, r: Result<(), StartError>)
    ensures GoodOrder(outbounds, order)
    ensures r.Ok? ==> Tags(order) == Tags(outbounds) && |order| == |outbounds|
    ensures r.Ok? <==> DistinctTags(outbounds) && Complete(outbounds) && Acyclic(DependencyGraph(outbounds)) && fails !! Tags(outbounds)
    ensures r.Err? && r.error.StartFailed? ==> r.error.tag in Tags(outbounds) && FailsLast(order, fails, r.error.tag, [])
    ensures r.Err? && (r.error.Circular? || r.error.Missing?) ==> Diagnosed(outbounds, r.error)
    ensures r == Err(NoneLeft) <==> !DistinctTags(outbounds) && Startable(outbounds) && fails !! Tags(outbounds)
  {
    order := [];
    while true
      invariant GoodOrder(outbounds, order)
      invariant forall h :: h in order ==> h.tag !in fails
      decreases |Tags(outbounds)| - |order|
    {
      var swept, progress, failed := Sweep(outbounds, fails, order);
      OrderBound(outbounds, swept);
      if failed.Some? {
        order := swept;
        return order, Err(StartFailed(failed.value));
      }
      order := swept;
      if |Tags(order)| == |outbounds| {
        FullOrder(outbounds, order);
        NoneFails(outbounds, order, fails);
        return order, Ok(());
      }
      if !progress {
        var e := Diagnose(outbounds, order);
        if e.NoneLeft? {
          if DistinctTags(outbounds) {
            TagsCount(outbounds);
          }
          NoneFails(outbounds, order, fails);
        } else {
          DiagnosisIsReal(outbounds, e);
          if Startable(outbounds) {
            BlockedStartable(outbounds, Tags(order));
            SubsetTags(outbounds, order);
          }
        }
        return order, Err(e);
      }
    }
  }
}
