/** Replacing the running outbounds of a provider in one transaction
    (adapter/provider/graph.go, replaceStartedOutbounds): candidates are built
    and started beside the old outbounds, swapped in as a batch, or taken down
    again. Building a candidate, whether each of its starts succeeds, and how
    many cleanups a start registers come from the environment. */
module ReplaceOutbounds {
  import opened Common
  import opened OutboundManager
  import opened OutboundSwap
  import opened OutboundRegistry
  import opened ProviderAffected
  import PS = ProviderSort
  import ST = ScopeTree
  import SF = ScopeForest

  type Prepared = PS.Prepared

  datatype Built = Built(prepared: Prepared, handle: Handle)

  /** The components started in scope x. */
  ghost function StartedIn(scopes: seq<ST.Scope>, x: nat): set<nat>
    requires x < |scopes|
  {
    if scopes[x].children.Some? then scopes[x].children.value.Keys else {}
  }

  /* The scope, seen from its list of started components. */

  lemma RemoveEffect(f: SF.Forest, x: nat, component: nat, at: nat)
    requires SF.Inv(f) && x < |f.scopes| && f.scopes[x].children.Some? && at < |f.scopes[x].cleanups|
    requires f.scopes[x].cleanups[at].Child? && f.scopes[x].cleanups[at].component == component
    requires f.scopes[x].cleanups[at].scope < |f.scopes|
    ensures var g := SF.Closed(SF.Detached(f, x, component, at), f.scopes[x].cleanups[at].scope);
            |g.scopes| == |f.scopes| && StartedIn(g.scopes, x) == StartedIn(f.scopes, x) - {component}
  {
    var k, d := f.scopes[x].cleanups[at].scope, SF.Detached(f, x, component, at);
    assert ST.ScopeShape(f.scopes[x], f.parents, x);
    SF.DetachedInv(f, x, component, at);
    if x in ST.Tree(d.scopes, k) {
      ST.TreeMember(d.scopes, d.parents, k, 0, x);
      ST.UnderIsLater(d.parents, k, x);
    }
  }

  /** Takes a component down; the others stay started. */
  method RemoveOutbound(sc: SF.Scopes, x: nat, outbound: Handle)
    requires SF.Inv(sc.Abs()) && x < |sc.scopes|
    modifies sc
    ensures SF.Inv(sc.Abs()) && x < |sc.scopes|
    ensures outbound.lifecycle ==> StartedIn(sc.scopes, x) == StartedIn(old(sc.scopes), x) - {outbound.id}
    ensures !outbound.lifecycle ==> sc.Abs() == old(sc.Abs())
  {
    if !outbound.lifecycle {
      return;
    }
    ghost var f := sc.Abs();
    ghost var at := sc.Remove(x, outbound.id);
    if f.scopes[x].children.Some? && outbound.id in f.scopes[x].children.value {
      RemoveEffect(f, x, outbound.id, at);
    }
  }

  function Ids(outbounds: seq<Handle>): set<nat> {
    set k | 0 <= k < |outbounds| && outbounds[k].lifecycle :: outbounds[k].id
  }

  /** Takes all of them down, last first. */
  method RemoveOutboundsReverse(sc: SF.Scopes, x: nat, outbounds: seq<Handle>)
    requires SF.Inv(sc.Abs()) && x < |sc.scopes|
    modifies sc
    ensures SF.Inv(sc.Abs()) && x < |sc.scopes|
    ensures StartedIn(sc.scopes, x) == StartedIn(old(sc.scopes), x) - Ids(outbounds)
  {
    for i := |outbounds| downto 0
      invariant SF.Inv(sc.Abs()) && x < |sc.scopes|
      invariant StartedIn(sc.scopes, x) == StartedIn(old(sc.scopes), x) - Ids(outbounds[i..])
    {
      IdsStep(outbounds, i);
      RemoveOutbound(sc, x, outbounds[i]);
    }
    assert outbounds[0..] == outbounds;
  }

  lemma IdsStep(outbounds: seq<Handle>, i: nat)
    requires i < |outbounds|
    ensures Ids(outbounds[i..]) == Ids(outbounds[i + 1..]) + (if outbounds[i].lifecycle then {outbounds[i].id} else {})
  {
    var longer, shorter := outbounds[i..], outbounds[i + 1..];
    assert longer == [outbounds[i]] + shorter;
    forall n | n in Ids(shorter) ensures n in Ids(longer) {
      var k :| 0 <= k < |shorter| && shorter[k].lifecycle && shorter[k].id == n;
      assert longer[k + 1] == shorter[k];
    }
    forall n | n in Ids(longer) ensures n in Ids(shorter) || (outbounds[i].lifecycle && n == outbounds[i].id) {
      var k :| 0 <= k < |longer| && longer[k].lifecycle && longer[k].id == n;
      if k > 0 {
        assert shorter[k - 1] == longer[k];
      }
    }
    if outbounds[i].lifecycle {
      assert longer[0].lifecycle && longer[0].id == outbounds[i].id;
    }
  }

  /** Whether a scope is done depends on the closed flags and parents only. */
  lemma {:induction false} SameCancelled(scopes: seq<ST.Scope>, parents: seq<nat>, scopes': seq<ST.Scope>, parents': seq<nat>, x: nat)
    requires x < |scopes| == |parents| <= |scopes'| == |parents'|
    requires forall y :: 0 <= y < |scopes| ==> scopes'[y].cancelled == scopes[y].cancelled && parents'[y] == parents[y]
    ensures SF.Cancelled(scopes', parents', x) == SF.Cancelled(scopes, parents, x)
    decreases x
  {
    if !scopes[x].cancelled && parents[x] < x {
      SameCancelled(scopes, parents, scopes', parents', parents[x]);
    }
  }

  ghost predicate IsDone(sc: SF.Scopes, x: nat)
    reads sc
    requires x < |sc.scopes| == |sc.parents|
  {
    SF.Cancelled(sc.scopes, sc.parents, x)
  }

  lemma ChildIsOther(f: SF.Forest, x: nat, component: nat)
    requires SF.Inv(f) && x < |f.scopes| && f.scopes[x].children.Some?
    ensures component in f.scopes[x].children.value ==> x < f.scopes[x].children.value[component] < |f.scopes|
  {
    assert ST.ScopeShape(f.scopes[x], f.parents, x) && ST.Agrees(f.scopes[x]);
    if component in f.scopes[x].children.value {
      assert ST.Child(component, f.scopes[x].children.value[component]) in f.scopes[x].cleanups;
    }
  }

  /** One start: the component is in the scope afterwards whether or not its
      start succeeds, unless the scope is done. */
  method StartIn(sc: SF.Scopes, x: nat, outbound: Handle, ok: bool, registers: nat) returns (started: bool)
    requires SF.Inv(sc.Abs()) && x < |sc.scopes|
    modifies sc
    ensures SF.Inv(sc.Abs()) && x < |sc.scopes|
    ensures StartedIn(sc.scopes, x) == StartedIn(old(sc.scopes), x)
            || StartedIn(sc.scopes, x) == StartedIn(old(sc.scopes), x) + {outbound.id}
    ensures started ==> outbound.id in StartedIn(sc.scopes, x)
    ensures started <==> ok && !old(IsDone(sc, x))
    ensures IsDone(sc, x) == old(IsDone(sc, x))
  {
    ghost var f := sc.Abs();
    var child := sc.Start(x, outbound.id);
    if child.None? {
      return false;
    }
    ghost var g := sc.Abs();
    ChildIsOther(f, x, outbound.id);
    SameCancelled(f.scopes, f.parents, g.scopes, g.parents, x);
    Register(sc, child.value, registers);
    SameCancelled(g.scopes, g.parents, sc.scopes, sc.parents, x);
    return ok;
  }

  /** What a component registers in its own scope concerns no other. */
  method Register(sc: SF.Scopes, child: nat, count: nat)
    requires SF.Inv(sc.Abs()) && child < |sc.scopes|
    modifies sc
    ensures SF.Inv(sc.Abs()) && |sc.scopes| == |old(sc.scopes)| && sc.parents == old(sc.parents)
    ensures forall y :: 0 <= y < |sc.scopes| && y != child ==> sc.scopes[y] == old(sc.scopes)[y]
    ensures forall y :: 0 <= y < |sc.scopes| ==> sc.scopes[y].cancelled == old(sc.scopes)[y].cancelled
  {
    for n := 0 to count
      invariant SF.Inv(sc.Abs()) && |sc.scopes| == |old(sc.scopes)| && sc.parents == old(sc.parents)
      invariant forall y :: 0 <= y < |sc.scopes| && y != child ==> sc.scopes[y] == old(sc.scopes)[y]
      invariant forall y :: 0 <= y < |sc.scopes| ==> sc.scopes[y].cancelled == old(sc.scopes)[y].cancelled
    {
      var _ := sc.Add(child);
    }
  }

  /* The order of the candidates. */

  /** No outbound depends on itself or on a later one. */
  ghost predicate Topological(list: seq<Prepared>) {
    forall i, j :: 0 <= i <= j < |list| ==> list[j].tag !in list[i].dependencies
  }

  lemma OrderedIsTopological(byTag: map<string, Prepared>, list: seq<Prepared>)
    requires PS.Ordered(byTag, list)
    ensures Topological(list) && PS.DistinctTags(list)
  {
    forall i, j | 0 <= i <= j < |list| ensures list[j].tag !in list[i].dependencies {
      assert PS.DependenciesBefore(byTag, list, i);
    }
  }

  /** The outbounds to rebuild, in order. */
  function Select(list: seq<Prepared>, tags: set<string>): seq<Prepared> {
    if list == [] then []
    else
      var last := list[|list| - 1];
      Select(list[..|list| - 1], tags) + (if last.tag in tags then [last] else [])
  }

  lemma {:induction false} SelectMembers(list: seq<Prepared>, tags: set<string>)
    ensures forall e :: e in Select(list, tags) <==> e in list && e.tag in tags
  {
    if list != [] {
      var last := |list| - 1;
      SelectMembers(list[..last], tags);
      assert list == list[..last] + [list[last]];
    }
  }

  lemma {:induction false} SelectTopological(list: seq<Prepared>, tags: set<string>)
    requires Topological(list) && PS.DistinctTags(list)
    ensures Topological(Select(list, tags)) && PS.DistinctTags(Select(list, tags))
  {
    if list != [] {
      var last := |list| - 1;
      SelectTopological(list[..last], tags);
      SelectMembers(list[..last], tags);
      var rest := Select(list[..last], tags);
      forall k | 0 <= k < |rest| ensures rest[k].tag != list[last].tag && list[last].tag !in rest[k].dependencies {
        FromEarlier(list, last, rest[k]);
      }
      assert list[last].tag !in list[last].dependencies;
      if list[last].tag in tags {
        TopologicalMore(rest, list[last]);
      }
    }
  }

  lemma TopologicalMore(rest: seq<Prepared>, e: Prepared)
    requires Topological(rest) && PS.DistinctTags(rest) && e.tag !in e.dependencies
    requires forall k :: 0 <= k < |rest| ==> rest[k].tag != e.tag && e.tag !in rest[k].dependencies
    ensures Topological(rest + [e]) && PS.DistinctTags(rest + [e])
  {}

  /* Building. */

  /** What building gives; the handle means nothing when it failed. */
  function Candidate(e: Prepared, build: Prepared -> Option<Handle>): Built {
    Built(e, if build(e).Some? then build(e).value else Handle(0, "", [], false))
  }

  /** The built candidates come from the list, and each depends only on earlier ones. */
  ghost predicate BuiltFrom(list: seq<Prepared>, built: seq<Built>, build: Prepared -> Option<Handle>) {
    && (forall k :: 0 <= k < |built| ==> built[k].prepared in list && build(built[k].prepared) == Some(built[k].handle))
    && (forall i, j :: 0 <= i <= j < |built| ==> built[j].prepared.tag !in built[i].prepared.dependencies)
    && (forall i, j :: 0 <= i < j < |built| ==> built[i].prepared.tag != built[j].prepared.tag)
  }

  /** What was built for the outbounds that are not invalid, in their order. */
  function BuiltOf(list: seq<Prepared>, invalid: set<string>, build: Prepared -> Option<Handle>): seq<Built> {
    if list == [] then []
    else
      var last := list[|list| - 1];
      BuiltOf(list[..|list| - 1], invalid, build) + (if last.tag in invalid then [] else [Candidate(last, build)])
  }

  lemma {:induction false} BuiltOfOther(list: seq<Prepared>, invalid: set<string>, build: Prepared -> Option<Handle>, tag: string)
    requires tag !in PS.TagSet(list)
    ensures BuiltOf(list, invalid + {tag}, build) == BuiltOf(list, invalid, build)
  {
    if list != [] {
      var front, last := list[..|list| - 1], list[|list| - 1];
      assert list == front + [last];
      PS.TagSetStep(front, last);
      BuiltOfOther(front, invalid, build, tag);
    }
  }

  lemma BuiltOfStep(list: seq<Prepared>, i: nat, invalid: set<string>, build: Prepared -> Option<Handle>)
    requires PS.DistinctTags(list) && i < |list| && list[i].tag !in invalid
    ensures BuiltOf(list[..i + 1], invalid + {list[i].tag}, build) == BuiltOf(list[..i], invalid, build)
    ensures BuiltOf(list[..i + 1], invalid, build) == BuiltOf(list[..i], invalid, build) + [Candidate(list[i], build)]
  {
    assert list[..i + 1][..i] == list[..i];
    assert list[i].tag !in PS.TagSet(list[..i]) by {
      assert forall k :: 0 <= k < i ==> list[..i][k] == list[k];
    }
    BuiltOfOther(list[..i], invalid, build, list[i].tag);
  }

  ghost predicate DependsOnly(b: Built, invalid: set<string>) {
    forall d :: d in b.prepared.dependencies ==> d !in invalid
  }

  /** No good candidate depends on an invalid one. */
  ghost predicate Sound(built: seq<Built>, invalid: set<string>) {
    forall k :: 0 <= k < |built| && built[k].prepared.tag !in invalid ==> DependsOnly(built[k], invalid)
  }

  ghost predicate IsBuilt(built: seq<Built>, tag: string) {
    exists k :: 0 <= k < |built| && built[k].prepared.tag == tag
  }

  ghost predicate Available(m: Manager, invalid: set<string>, staged: set<string>, tag: string)
    reads m
  {
    tag !in invalid && (tag in staged || Resolves(m.outboundByTag, m.endpoints, tag))
  }

  method MissingDependency(m: Manager, prepared: Prepared, invalid: set<string>, staged: set<string>) returns (missing: bool)
    requires m.Valid()
    ensures missing <==> exists d :: d in prepared.dependencies && !Available(m, invalid, staged, d)
  {
    for i := 0 to |prepared.dependencies|
      invariant forall k :: 0 <= k < i ==> Available(m, invalid, staged, prepared.dependencies[k])
    {
      var dependency := prepared.dependencies[i];
      if dependency in invalid {
        assert !Available(m, invalid, staged, dependency);
        return true;
      }
      if dependency !in staged {
        var found := m.Outbound(dependency);
        if found.None? {
          assert !Available(m, invalid, staged, dependency);
          return true;
        }
      }
    }
    return false;
  }

  lemma FromEarlier(list: seq<Prepared>, i: nat, e: Prepared)
    requires Topological(list) && PS.DistinctTags(list) && i < |list| && e in list[..i]
    ensures e.tag != list[i].tag && list[i].tag !in e.dependencies && e in list[..i + 1]
  {
    var p :| 0 <= p < i && list[..i][p] == e;
    assert list[p] == e && list[..i + 1][p] == e;
  }

  lemma BuiltStep(list: seq<Prepared>, built: seq<Built>, build: Prepared -> Option<Handle>, i: nat)
    requires Topological(list) && PS.DistinctTags(list) && i < |list| && BuiltFrom(list[..i], built, build)
    ensures BuiltFrom(list[..i + 1], built, build)
    ensures build(list[i]).Some? ==> BuiltFrom(list[..i + 1], built + [Built(list[i], build(list[i]).value)], build)
  {
    forall k | 0 <= k < |built|
      ensures built[k].prepared.tag != list[i].tag && list[i].tag !in built[k].prepared.dependencies && built[k].prepared in list[..i + 1]
    {
      FromEarlier(list, i, built[k].prepared);
    }
    assert list[..i + 1][i] == list[i];
    assert list[i].tag !in list[i].dependencies;
  }

  lemma SoundStep(list: seq<Prepared>, built: seq<Built>, build: Prepared -> Option<Handle>, invalid: set<string>, i: nat)
    requires Topological(list) && PS.DistinctTags(list) && i < |list|
    requires BuiltFrom(list[..i], built, build) && Sound(built, invalid)
    ensures Sound(built, invalid + {list[i].tag})
  {
    forall k | 0 <= k < |built| && built[k].prepared.tag !in invalid + {list[i].tag}
      ensures DependsOnly(built[k], invalid + {list[i].tag})
    {
      FromEarlier(list, i, built[k].prepared);
      assert DependsOnly(built[k], invalid);
    }
  }

  lemma FreshTag(list: seq<Prepared>, built: seq<Built>, build: Prepared -> Option<Handle>, invalid: set<string>, i: nat)
    requires Topological(list) && PS.DistinctTags(list) && i < |list|
    requires BuiltFrom(list[..i], built, build) && invalid <= PS.TagSet(list[..i])
    ensures list[i].tag !in invalid
    ensures forall k :: 0 <= k < |built| ==> built[k].prepared.tag != list[i].tag
    ensures PS.TagSet(list[..i + 1]) == PS.TagSet(list[..i]) + {list[i].tag}
  {
    forall k | 0 <= k < |built| ensures built[k].prepared.tag != list[i].tag {
      FromEarlier(list, i, built[k].prepared);
    }
    assert list[..i + 1] == list[..i] + [list[i]];
    PS.TagSetStep(list[..i], list[i]);
    assert forall k :: 0 <= k < i ==> list[..i][k].tag != list[i].tag;
  }

  /** Every outbound tried so far was built or is invalid. */
  ghost predicate Tried(list: seq<Prepared>, i: nat, built: seq<Built>, invalid: set<string>)
    requires i <= |list|
  {
    forall k :: 0 <= k < i ==> list[k].tag in invalid || IsBuilt(built, list[k].tag)
  }

  lemma TriedMore(list: seq<Prepared>, i: nat, built: seq<Built>, invalid: set<string>, b: Built)
    requires i < |list| && Tried(list, i, built, invalid)
    ensures Tried(list, i + 1, built, invalid + {list[i].tag})
    ensures b.prepared == list[i] ==> Tried(list, i + 1, built + [b], invalid)
  {
    forall k | 0 <= k < i && list[k].tag !in invalid ensures IsBuilt(built + [b], list[k].tag) {
      var m :| 0 <= m < |built| && built[m].prepared.tag == list[k].tag;
      assert (built + [b])[m] == built[m];
    }
    if b.prepared == list[i] {
      assert (built + [b])[|built|].prepared.tag == list[i].tag;
    }
  }

  /** Why an outbound cannot become a candidate: it cannot be built, or it
      depends on one that is invalid or found nowhere. */
  ghost predicate Unbuildable(e: Prepared, build: Prepared -> Option<Handle>, built: seq<Built>, invalid: set<string>,
                              byTag: TagMap, endpoints: TagMap)
  {
    build(e).None? || exists d :: d in e.dependencies && !Usable(d, built, invalid, byTag, endpoints)
  }

  ghost predicate Usable(d: string, built: seq<Built>, invalid: set<string>, byTag: TagMap, endpoints: TagMap) {
    d !in invalid && (IsBuilt(built, d) || Resolves(byTag, endpoints, d))
  }

  /** Exactly the unbuildable ones of the first i are invalid. */
  ghost predicate Judged(list: seq<Prepared>, i: nat, build: Prepared -> Option<Handle>, built: seq<Built>, invalid: set<string>,
                         byTag: TagMap, endpoints: TagMap)
    requires i <= |list|
  {
    forall k :: 0 <= k < i ==> (list[k].tag in invalid <==> Unbuildable(list[k], build, built, invalid, byTag, endpoints))
  }

  /** A later outbound, built or invalid, changes nothing for an earlier one. */
  lemma SameUsable(d: string, built: seq<Built>, invalid: set<string>, b: Built, tag: string, byTag: TagMap, endpoints: TagMap)
    requires d != tag && b.prepared.tag == tag
    ensures Usable(d, built + [b], invalid, byTag, endpoints) == Usable(d, built, invalid, byTag, endpoints)
    ensures Usable(d, built, invalid + {tag}, byTag, endpoints) == Usable(d, built, invalid, byTag, endpoints)
  {
    if k :| 0 <= k < |built| && built[k].prepared.tag == d {
      assert (built + [b])[k] == built[k];
    }
    if k :| 0 <= k < |built + [b]| && (built + [b])[k].prepared.tag == d {
      assert k < |built| && built[k].prepared.tag == d;
    }
  }

  lemma JudgedEarlier(list: seq<Prepared>, i: nat, k: nat, build: Prepared -> Option<Handle>, built: seq<Built>, invalid: set<string>,
                      b: Built, byTag: TagMap, endpoints: TagMap)
    requires Topological(list) && k <= i < |list| && b.prepared == list[i]
    ensures Unbuildable(list[k], build, built + [b], invalid, byTag, endpoints)
         == Unbuildable(list[k], build, built, invalid, byTag, endpoints)
    ensures Unbuildable(list[k], build, built, invalid + {list[i].tag}, byTag, endpoints)
         == Unbuildable(list[k], build, built, invalid, byTag, endpoints)
  {
    forall d | d in list[k].dependencies
      ensures Usable(d, built + [b], invalid, byTag, endpoints) == Usable(d, built, invalid, byTag, endpoints)
      ensures Usable(d, built, invalid + {list[i].tag}, byTag, endpoints) == Usable(d, built, invalid, byTag, endpoints)
    {
      SameUsable(d, built, invalid, b, list[i].tag, byTag, endpoints);
    }
  }

  lemma JudgedMore(list: seq<Prepared>, i: nat, build: Prepared -> Option<Handle>, built: seq<Built>, invalid: set<string>,
                   b: Built, byTag: TagMap, endpoints: TagMap)
    requires Topological(list) && PS.DistinctTags(list) && i < |list| && b.prepared == list[i] && list[i].tag !in invalid
    requires Judged(list, i, build, built, invalid, byTag, endpoints)
    ensures Unbuildable(list[i], build, built, invalid, byTag, endpoints) ==>
              Judged(list, i + 1, build, built, invalid + {list[i].tag}, byTag, endpoints)
    ensures !Unbuildable(list[i], build, built, invalid, byTag, endpoints) ==>
              Judged(list, i + 1, build, built + [b], invalid, byTag, endpoints)
  {
    forall k | 0 <= k <= i
      ensures Unbuildable(list[k], build, built + [b], invalid, byTag, endpoints)
           == Unbuildable(list[k], build, built, invalid, byTag, endpoints)
      ensures Unbuildable(list[k], build, built, invalid + {list[i].tag}, byTag, endpoints)
           == Unbuildable(list[k], build, built, invalid, byTag, endpoints)
    {
      JudgedEarlier(list, i, k, build, built, invalid, b, byTag, endpoints);
    }
  }

  /** What has been staged is what has been built. */
  ghost predicate StagedAre(staged: set<string>, built: seq<Built>) {
    forall t :: t in staged <==> IsBuilt(built, t)
  }

  lemma StagedMore(staged: set<string>, built: seq<Built>, b: Built)
    requires StagedAre(staged, built)
    ensures StagedAre(staged + {b.prepared.tag}, built + [b])
  {
    assert (built + [b])[|built|] == b;
    forall t ensures t in staged + {b.prepared.tag} <==> IsBuilt(built + [b], t) {
      if IsBuilt(built, t) {
        var k :| 0 <= k < |built| && built[k].prepared.tag == t;
        assert (built + [b])[k].prepared.tag == t;
      }
      if IsBuilt(built + [b], t) && t != b.prepared.tag {
        var k :| 0 <= k < |built + [b]| && (built + [b])[k].prepared.tag == t;
        assert built[k].prepared.tag == t;
      }
    }
  }

  lemma MissingMeans(m: Manager, e: Prepared, build: Prepared -> Option<Handle>, built: seq<Built>, invalid: set<string>,
                     staged: set<string>, missing: bool)
    requires StagedAre(staged, built)
    requires missing <==> exists d :: d in e.dependencies && !Available(m, invalid, staged, d)
    ensures missing || build(e).None? <==> Unbuildable(e, build, built, invalid, m.outboundByTag, m.endpoints)
  {
    forall d ensures Available(m, invalid, staged, d) <==> Usable(d, built, invalid, m.outboundByTag, m.endpoints) {}
  }

  /** Where building stands after the first i outbounds. */
  ghost predicate BuiltUpTo(list: seq<Prepared>, i: nat, build: Prepared -> Option<Handle>, built: seq<Built>, invalid: set<string>,
                            byTag: TagMap, endpoints: TagMap)
    requires i <= |list|
  {
    && BuiltFrom(list[..i], built, build) && Sound(built, invalid)
    && invalid <= PS.TagSet(list[..i]) && Tried(list, i, built, invalid)
    && (forall k :: 0 <= k < |built| ==> built[k].prepared.tag !in invalid)
    && Judged(list, i, build, built, invalid, byTag, endpoints)
    && built == BuiltOf(list[..i], invalid, build)
  }

  lemma NotBuilt(list: seq<Prepared>, i: nat, build: Prepared -> Option<Handle>, built: seq<Built>, invalid: set<string>,
                 byTag: TagMap, endpoints: TagMap)
    requires Topological(list) && PS.DistinctTags(list) && i < |list|
    requires BuiltUpTo(list, i, build, built, invalid, byTag, endpoints)
    requires Unbuildable(list[i], build, built, invalid, byTag, endpoints)
    ensures BuiltUpTo(list, i + 1, build, built, invalid + {list[i].tag}, byTag, endpoints)
  {
    BuiltStep(list, built, build, i);
    FreshTag(list, built, build, invalid, i);
    BuiltOfStep(list, i, invalid, build);
    JudgedMore(list, i, build, built, invalid, Candidate(list[i], build), byTag, endpoints);
    SoundStep(list, built, build, invalid, i);
    TriedMore(list, i, built, invalid, Candidate(list[i], build));
  }

  lemma OneBuilt(list: seq<Prepared>, i: nat, build: Prepared -> Option<Handle>, built: seq<Built>, invalid: set<string>,
                 byTag: TagMap, endpoints: TagMap)
    requires Topological(list) && PS.DistinctTags(list) && i < |list|
    requires BuiltUpTo(list, i, build, built, invalid, byTag, endpoints)
    requires !Unbuildable(list[i], build, built, invalid, byTag, endpoints)
    ensures BuiltUpTo(list, i + 1, build, built + [Candidate(list[i], build)], invalid, byTag, endpoints)
  {
    var b := Candidate(list[i], build);
    BuiltStep(list, built, build, i);
    FreshTag(list, built, build, invalid, i);
    BuiltOfStep(list, i, invalid, build);
    JudgedMore(list, i, build, built, invalid, b, byTag, endpoints);
    TriedMore(list, i, built, invalid, b);
    assert DependsOnly(b, invalid) by {
      assert forall d :: d in b.prepared.dependencies ==> Usable(d, built, invalid, byTag, endpoints);
    }
    SoundMore(built, invalid, b);
  }

  /** Tries each outbound in order; one whose dependency is unavailable, or that
      cannot be built, is invalid. */
  method BuildCandidates(m: Manager, list: seq<Prepared>, build: Prepared -> Option<Handle>)
    returns (built: seq<Built>, invalid: set<string>)
    requires m.Valid() && Topological(list) && PS.DistinctTags(list)
    ensures BuiltFrom(list, built, build) && Sound(built, invalid)
    ensures invalid <= PS.TagSet(list) && Tried(list, |list|, built, invalid)
    ensures forall k :: 0 <= k < |built| ==> built[k].prepared.tag !in invalid
    ensures Judged(list, |list|, build, built, invalid, m.outboundByTag, m.endpoints)
    ensures built == BuiltOf(list, invalid, build)
  {
    built, invalid := [], {};
    var staged: set<string> := {};
    for i := 0 to |list|
      invariant BuiltUpTo(list, i, build, built, invalid, m.outboundByTag, m.endpoints) && StagedAre(staged, built)
    {
      var missing := MissingDependency(m, list[i], invalid, staged);
      MissingMeans(m, list[i], build, built, invalid, staged, missing);
      if missing || build(list[i]).None? {
        NotBuilt(list, i, build, built, invalid, m.outboundByTag, m.endpoints);
        invalid := invalid + {list[i].tag};
      } else {
        var b := Candidate(list[i], build);
        OneBuilt(list, i, build, built, invalid, m.outboundByTag, m.endpoints);
        StagedMore(staged, built, b);
        built := built + [b];
        staged := staged + {list[i].tag};
      }
    }
    assert list[..|list|] == list;
  }

  lemma SoundMore(built: seq<Built>, invalid: set<string>, b: Built)
    requires Sound(built, invalid) && DependsOnly(b, invalid)
    ensures Sound(built + [b], invalid)
  {
    forall k | 0 <= k < |built + [b]| && (built + [b])[k].prepared.tag !in invalid
      ensures DependsOnly((built + [b])[k], invalid)
    {
      if k < |built| {
        assert DependsOnly(built[k], invalid);
      }
    }
  }

  /* Starting. */

  function Handles(built: seq<Built>): seq<Handle> {
    seq(|built|, k requires 0 <= k < |built| => built[k].handle)
  }

  ghost predicate SoundUpTo(built: seq<Built>, invalid: set<string>, i: nat)
    requires i <= |built|
  {
    forall k :: 0 <= k < i && built[k].prepared.tag !in invalid ==> DependsOnly(built[k], invalid)
  }

  /** Every good component handled so far is in the scope. */
  ghost predicate Running(scopes: seq<ST.Scope>, x: nat, built: seq<Built>, invalid: set<string>, i: nat)
    requires x < |scopes| && i <= |built|
  {
    forall k :: 0 <= k < i && built[k].prepared.tag !in invalid && built[k].handle.lifecycle ==>
      built[k].handle.id in StartedIn(scopes, x)
  }

  /** Between the old components and these with the candidates. */
  ghost predicate Between(scopes: seq<ST.Scope>, x: nat, started: set<nat>, built: seq<Built>)
    requires x < |scopes|
  {
    started <= StartedIn(scopes, x) <= started + Ids(Handles(built))
  }

  lemma MarkInvalid(list: seq<Prepared>, built: seq<Built>, build: Prepared -> Option<Handle>, invalid: set<string>, i: nat)
    requires BuiltFrom(list, built, build) && i < |built| && SoundUpTo(built, invalid, i)
    ensures SoundUpTo(built, invalid + {built[i].prepared.tag}, i + 1)
  {
    var more := invalid + {built[i].prepared.tag};
    forall k | 0 <= k < i + 1 && built[k].prepared.tag !in more ensures DependsOnly(built[k], more) {
      assert DependsOnly(built[k], invalid);
      assert built[i].prepared.tag !in built[k].prepared.dependencies;
    }
  }

  lemma IdOf(built: seq<Built>, i: nat)
    requires i < |built| && built[i].handle.lifecycle
    ensures built[i].handle.id in Ids(Handles(built))
  {
    assert Handles(built)[i] == built[i].handle;
  }

  method DependsOnInvalid(prepared: Prepared, invalid: set<string>) returns (r: bool)
    ensures r <==> exists d :: d in prepared.dependencies && d in invalid
  {
    for i := 0 to |prepared.dependencies|
      invariant forall k :: 0 <= k < i ==> prepared.dependencies[k] !in invalid
    {
      if prepared.dependencies[i] in invalid {
        return true;
      }
    }
    return false;
  }

  /** The component does not get through stage `stage`. */
  ghost predicate FailsAt(b: Built, stage: nat, startOk: (Handle, nat) -> bool, done: bool) {
    b.handle.lifecycle && (done || !startOk(b.handle, stage))
  }

  ghost predicate BadDependency(b: Built, invalid: set<string>) {
    exists d :: d in b.prepared.dependencies && d in invalid
  }

  /** After a stage: who became invalid failed it or depends on an invalid one,
      and who did not got through. */
  ghost predicate StageResult(built: seq<Built>, i: nat, failed: set<string>, invalid: set<string>, stage: nat,
                              startOk: (Handle, nat) -> bool, done: bool)
    requires i <= |built|
  {
    && (forall k :: 0 <= k < i && built[k].prepared.tag in invalid && built[k].prepared.tag !in failed ==>
          FailsAt(built[k], stage, startOk, done) || BadDependency(built[k], invalid))
    && (forall k :: 0 <= k < i && built[k].prepared.tag !in invalid ==> !FailsAt(built[k], stage, startOk, done))
  }

  lemma StageResultMore(built: seq<Built>, i: nat, failed: set<string>, invalid: set<string>, more: set<string>, stage: nat,
                        startOk: (Handle, nat) -> bool, done: bool)
    requires i < |built| && StageResult(built, i, failed, invalid, stage, startOk, done)
    requires forall k :: 0 <= k < i ==> built[k].prepared.tag != built[i].prepared.tag
    requires more == invalid || more == invalid + {built[i].prepared.tag}
    requires built[i].prepared.tag in more && built[i].prepared.tag !in failed ==>
               FailsAt(built[i], stage, startOk, done) || BadDependency(built[i], invalid)
    requires built[i].prepared.tag !in more ==> !FailsAt(built[i], stage, startOk, done)
    ensures StageResult(built, i + 1, failed, more, stage, startOk, done)
  {
    forall k | 0 <= k <= i && BadDependency(built[k], invalid) ensures BadDependency(built[k], more) {
      var d :| d in built[k].prepared.dependencies && d in invalid;
      assert d in more;
    }
  }

  /** One stage over all candidates: whoever fails to start, or depends on one
      that did, is invalid from then on. */
  method RunStage(sc: SF.Scopes, x: nat, stage: nat, ghost list: seq<Prepared>, built: seq<Built>, failed: set<string>,
                  ghost build: Prepared -> Option<Handle>, startOk: (Handle, nat) -> bool, registers: (Handle, nat) -> nat,
                  ghost started: set<nat>)
    returns (invalid: set<string>)
    requires SF.Inv(sc.Abs()) && x < |sc.scopes| && BuiltFrom(list, built, build)
    requires Between(sc.scopes, x, started, built)
    modifies sc
    ensures SF.Inv(sc.Abs()) && x < |sc.scopes| && Between(sc.scopes, x, started, built)
    ensures failed <= invalid <= failed + PS.TagSet(list)
    ensures Sound(built, invalid) && Running(sc.scopes, x, built, invalid, |built|)
    ensures IsDone(sc, x) == old(IsDone(sc, x))
    ensures StageResult(built, |built|, failed, invalid, stage, startOk, old(IsDone(sc, x)))
  {
    invalid := failed;
    ghost var done := IsDone(sc, x);
    for i := 0 to |built|
      invariant SF.Inv(sc.Abs()) && x < |sc.scopes| && Between(sc.scopes, x, started, built) && IsDone(sc, x) == done
      invariant Running(sc.scopes, x, built, invalid, i)
      invariant InStage(list, built, i, failed, invalid, stage, startOk, done)
    {
      ghost var before := invalid;
      if built[i].prepared.tag !in invalid {
        var ok := TryStart(sc, x, stage, built, i, invalid, startOk, registers, started);
        if !ok {
          invalid := invalid + {built[i].prepared.tag};
        }
      }
      InStageMore(list, built, build, i, failed, before, invalid, stage, startOk, done);
    }
  }

  /** The state of a stage that has handled the first i candidates. */
  ghost predicate InStage(list: seq<Prepared>, built: seq<Built>, i: nat, failed: set<string>, invalid: set<string>, stage: nat,
                          startOk: (Handle, nat) -> bool, done: bool)
    requires i <= |built|
  {
    && failed <= invalid <= failed + PS.TagSet(list)
    && (forall k :: i <= k < |built| && built[k].prepared.tag in invalid ==> built[k].prepared.tag in failed)
    && SoundUpTo(built, invalid, i)
    && StageResult(built, i, failed, invalid, stage, startOk, done)
  }

  lemma InStageMore(list: seq<Prepared>, built: seq<Built>, build: Prepared -> Option<Handle>, i: nat, failed: set<string>,
                    invalid: set<string>, more: set<string>, stage: nat, startOk: (Handle, nat) -> bool, done: bool)
    requires BuiltFrom(list, built, build) && i < |built| && InStage(list, built, i, failed, invalid, stage, startOk, done)
    requires var bad := FailsAt(built[i], stage, startOk, done) || BadDependency(built[i], invalid);
             more == if built[i].prepared.tag !in invalid && bad then invalid + {built[i].prepared.tag} else invalid
    ensures InStage(list, built, i + 1, failed, more, stage, startOk, done)
  {
    TagInList(list, built, build, i);
    StageResultMore(built, i, failed, invalid, more, stage, startOk, done);
    if more != invalid {
      MarkInvalid(list, built, build, invalid, i);
    } else if built[i].prepared.tag !in invalid {
      assert DependsOnly(built[i], invalid);
    }
  }

  /** One candidate in one stage. */
  method TryStart(sc: SF.Scopes, x: nat, stage: nat, built: seq<Built>, i: nat, invalid: set<string>,
                  startOk: (Handle, nat) -> bool, registers: (Handle, nat) -> nat, ghost started: set<nat>)
    returns (ok: bool)
    requires SF.Inv(sc.Abs()) && x < |sc.scopes| && i < |built| && Between(sc.scopes, x, started, built)
    modifies sc
    ensures SF.Inv(sc.Abs()) && x < |sc.scopes| && Between(sc.scopes, x, started, built)
    ensures StartedIn(old(sc.scopes), x) <= StartedIn(sc.scopes, x)
    ensures ok <==> !FailsAt(built[i], stage, startOk, old(IsDone(sc, x))) && !BadDependency(built[i], invalid)
    ensures ok && built[i].handle.lifecycle ==> built[i].handle.id in StartedIn(sc.scopes, x)
    ensures IsDone(sc, x) == old(IsDone(sc, x))
  {
    var broken := DependsOnInvalid(built[i].prepared, invalid);
    if broken {
      return false;
    }
    if !built[i].handle.lifecycle {
      return true;
    }
    IdOf(built, i);
    ok := StartIn(sc, x, built[i].handle, startOk(built[i].handle, stage), registers(built[i].handle, stage));
  }

  lemma TagInList(list: seq<Prepared>, built: seq<Built>, build: Prepared -> Option<Handle>, i: nat)
    requires BuiltFrom(list, built, build) && i < |built|
    ensures built[i].prepared.tag in PS.TagSet(list)
  {
    assert built[i].prepared in list;
    var k :| 0 <= k < |list| && list[k] == built[i].prepared;
  }

  /** The candidate does not get through the stages, or depends on one that is
      invalid. */
  ghost predicate Unstartable(b: Built, invalid: set<string>, stages: nat, startOk: (Handle, nat) -> bool, done: bool) {
    BadDependency(b, invalid) || exists stage :: 0 <= stage < stages && FailsAt(b, stage, startOk, done)
  }

  ghost predicate StagesResult(built: seq<Built>, failed: set<string>, invalid: set<string>, stages: nat,
                               startOk: (Handle, nat) -> bool, done: bool)
  {
    && (forall k :: 0 <= k < |built| && built[k].prepared.tag in invalid ==>
          built[k].prepared.tag in failed || Unstartable(built[k], invalid, stages, startOk, done))
    && (forall k, stage :: 0 <= k < |built| && 0 <= stage < stages && built[k].prepared.tag !in invalid ==>
          !FailsAt(built[k], stage, startOk, done))
  }

  lemma StagesResultMore(built: seq<Built>, failed: set<string>, invalid: set<string>, more: set<string>, stages: nat,
                         startOk: (Handle, nat) -> bool, done: bool)
    requires StagesResult(built, failed, invalid, stages, startOk, done) && invalid <= more
    requires StageResult(built, |built|, invalid, more, stages, startOk, done)
    ensures StagesResult(built, failed, more, stages + 1, startOk, done)
  {
    forall k | 0 <= k < |built| && built[k].prepared.tag in more && built[k].prepared.tag !in failed
      ensures Unstartable(built[k], more, stages + 1, startOk, done)
    {
      if built[k].prepared.tag in invalid {
        StillUnstartable(built[k], invalid, more, stages, startOk, done);
      } else if FailsAt(built[k], stages, startOk, done) {
        assert 0 <= stages < stages + 1;
      }
    }
  }

  lemma StillUnstartable(b: Built, invalid: set<string>, more: set<string>, stages: nat, startOk: (Handle, nat) -> bool, done: bool)
    requires Unstartable(b, invalid, stages, startOk, done) && invalid <= more
    ensures Unstartable(b, more, stages + 1, startOk, done)
  {
    if BadDependency(b, invalid) {
      var d :| d in b.prepared.dependencies && d in invalid;
      assert d in more;
    } else {
      var stage :| 0 <= stage < stages && FailsAt(b, stage, startOk, done);
      assert 0 <= stage < stages + 1;
    }
  }

  /** All stages up to the manager's. */
  method RunStages(sc: SF.Scopes, x: nat, stages: nat, ghost list: seq<Prepared>, built: seq<Built>, failed: set<string>,
                   ghost build: Prepared -> Option<Handle>, startOk: (Handle, nat) -> bool, registers: (Handle, nat) -> nat,
                   ghost started: set<nat>)
    returns (invalid: set<string>)
    requires SF.Inv(sc.Abs()) && x < |sc.scopes| && BuiltFrom(list, built, build) && stages > 0
    requires StartedIn(sc.scopes, x) == started
    requires forall k :: 0 <= k < |built| ==> built[k].prepared.tag !in failed
    modifies sc
    ensures SF.Inv(sc.Abs()) && x < |sc.scopes| && Between(sc.scopes, x, started, built)
    ensures failed <= invalid <= failed + PS.TagSet(list)
    ensures Sound(built, invalid) && Running(sc.scopes, x, built, invalid, |built|)
    ensures StagesResult(built, failed, invalid, stages, startOk, old(IsDone(sc, x)))
  {
    invalid := failed;
    ghost var done := IsDone(sc, x);
    for stage := 0 to stages
      invariant SF.Inv(sc.Abs()) && x < |sc.scopes| && Between(sc.scopes, x, started, built)
      invariant failed <= invalid <= failed + PS.TagSet(list)
      invariant stage > 0 ==> Sound(built, invalid) && Running(sc.scopes, x, built, invalid, |built|)
      invariant IsDone(sc, x) == done && StagesResult(built, failed, invalid, stage, startOk, done)
    {
      ghost var before := invalid;
      invalid := RunStage(sc, x, stage, list, built, invalid, build, startOk, registers, started);
      StagesResultMore(built, failed, before, invalid, stage, startOk, done);
    }
  }

  /* Sorting out the candidates. */

  function Sorted(built: seq<Built>, invalid: set<string>, good: bool): seq<Handle> {
    if built == [] then []
    else
      var last := built[|built| - 1];
      Sorted(built[..|built| - 1], invalid, good)
      + (if (last.prepared.tag !in invalid) == good then [last.handle] else [])
  }

  /** The candidates to put in, in order. */
  function Rebuilt(list: seq<Prepared>, invalid: set<string>, build: Prepared -> Option<Handle>): seq<Handle> {
    if list == [] then []
    else
      var last := list[|list| - 1];
      Rebuilt(list[..|list| - 1], invalid, build) + (if last.tag in invalid then [] else [Candidate(last, build).handle])
  }

  lemma SortedMore(built: seq<Built>, b: Built, invalid: set<string>)
    ensures Sorted(built + [b], invalid, true) == Sorted(built, invalid, true) + (if b.prepared.tag in invalid then [] else [b.handle])
  {
    assert (built + [b])[..|built|] == built;
  }

  /** One that failed to build is in no candidate list, so only the final verdict counts. */
  lemma {:induction false} SortedIsRebuilt(list: seq<Prepared>, failed: set<string>, invalid: set<string>, build: Prepared -> Option<Handle>)
    requires failed <= invalid
    ensures Sorted(BuiltOf(list, failed, build), invalid, true) == Rebuilt(list, invalid, build)
  {
    if list != [] {
      var front, last := list[..|list| - 1], list[|list| - 1];
      SortedIsRebuilt(front, failed, invalid, build);
      var built := BuiltOf(front, failed, build);
      SortedMore(built, Candidate(last, build), invalid);
      assert built + [] == built;
    }
  }

  lemma {:induction false} SortedMembers(built: seq<Built>, invalid: set<string>, good: bool, h: Handle)
    ensures h in Sorted(built, invalid, good)
            <==> exists k :: 0 <= k < |built| && built[k].handle == h && (built[k].prepared.tag !in invalid) == good
  {
    if built != [] {
      var front, last := built[..|built| - 1], built[|built| - 1];
      SortedMembers(front, invalid, good, h);
      if k :| 0 <= k < |built| && built[k].handle == h && (built[k].prepared.tag !in invalid) == good {
        if k < |front| {
          assert front[k] == built[k];
        }
      }
      if k :| 0 <= k < |front| && front[k].handle == h && (front[k].prepared.tag !in invalid) == good {
        assert built[k] == front[k];
      }
    }
  }

  lemma IdsIn(outbounds: seq<Handle>, id: nat)
    ensures id in Ids(outbounds) <==> exists h :: h in outbounds && h.lifecycle && h.id == id
  {
    if h :| h in outbounds && h.lifecycle && h.id == id {
      var k :| 0 <= k < |outbounds| && outbounds[k] == h;
    }
  }

  /** Built handles are new objects with the tag they were built for. */
  ghost predicate FreshBuild(list: seq<Prepared>, build: Prepared -> Option<Handle>, started: set<nat>) {
    && (forall e :: e in list && build(e).Some? ==> build(e).value.tag == e.tag && build(e).value.id !in started)
    && (forall e, f :: e in list && f in list && build(e).Some? && build(f).Some? && build(e).value.id == build(f).value.id
          ==> e.tag == f.tag)
  }

  lemma SortedIds(list: seq<Prepared>, built: seq<Built>, build: Prepared -> Option<Handle>, invalid: set<string>, started: set<nat>)
    requires BuiltFrom(list, built, build) && FreshBuild(list, build, started)
    ensures Ids(Sorted(built, invalid, true)) + Ids(Sorted(built, invalid, false)) == Ids(Handles(built))
    ensures Ids(Sorted(built, invalid, true)) !! Ids(Sorted(built, invalid, false))
    ensures Ids(Handles(built)) !! started
  {
    forall id ensures id in Ids(Handles(built)) <==>
                      id in Ids(Sorted(built, invalid, true)) || id in Ids(Sorted(built, invalid, false))
    {
      SortedId(built, invalid, true, id);
      SortedId(built, invalid, false, id);
      if id in Ids(Handles(built)) {
        var k :| 0 <= k < |built| && Handles(built)[k].lifecycle && Handles(built)[k].id == id;
        assert HasId(built, k, id, invalid, built[k].prepared.tag !in invalid);
      }
    }
    forall id | id in Ids(Sorted(built, invalid, true)) ensures id !in Ids(Sorted(built, invalid, false)) {
      SortedId(built, invalid, true, id);
      SortedId(built, invalid, false, id);
    }
  }

  ghost predicate HasId(built: seq<Built>, k: nat, id: nat, invalid: set<string>, good: bool)
    requires k < |built|
  {
    built[k].handle.lifecycle && built[k].handle.id == id && (built[k].prepared.tag !in invalid) == good
  }

  lemma SortedId(built: seq<Built>, invalid: set<string>, good: bool, id: nat)
    ensures id in Ids(Sorted(built, invalid, good)) <==> exists k :: 0 <= k < |built| && HasId(built, k, id, invalid, good)
    ensures id in Ids(Sorted(built, invalid, good)) ==> id in Ids(Handles(built))
  {
    IdsIn(Sorted(built, invalid, good), id);
    if h :| h in Sorted(built, invalid, good) && h.lifecycle && h.id == id {
      SortedMembers(built, invalid, good, h);
      var k :| 0 <= k < |built| && built[k].handle == h && (built[k].prepared.tag !in invalid) == good;
      assert HasId(built, k, id, invalid, good);
      assert Handles(built)[k] == h;
    }
    if k :| 0 <= k < |built| && HasId(built, k, id, invalid, good) {
      SortedMembers(built, invalid, good, built[k].handle);
    }
  }

  /** What is in the scope once the bad candidates are out, and once all are. */
  lemma ScopeAfter(list: seq<Prepared>, built: seq<Built>, build: Prepared -> Option<Handle>, invalid: set<string>,
                   scopes: seq<ST.Scope>, x: nat, started: set<nat>)
    requires x < |scopes| && BuiltFrom(list, built, build) && FreshBuild(list, build, started)
    requires Between(scopes, x, started, built) && Running(scopes, x, built, invalid, |built|)
    ensures StartedIn(scopes, x) - Ids(Sorted(built, invalid, false)) == started + Ids(Sorted(built, invalid, true))
    ensures StartedIn(scopes, x) - Ids(Sorted(built, invalid, false)) - Ids(Sorted(built, invalid, true)) == started
  {
    SortedIds(list, built, build, invalid, started);
    forall id | id in Ids(Sorted(built, invalid, true)) ensures id in StartedIn(scopes, x) {
      SortedId(built, invalid, true, id);
      var k :| 0 <= k < |built| && HasId(built, k, id, invalid, true);
    }
  }

  /* What the provider gets back. */

  /** The replaced outbounds, in reverse of their creation order. */
  function CloseOrder(before: seq<Prepared>, expected: TagMap, i: nat): seq<Handle>
    requires i <= |before|
    decreases |before| - i
  {
    if i == |before| then []
    else CloseOrder(before, expected, i + 1) + (if before[i].tag in expected then [expected[before[i].tag]] else [])
  }

  lemma {:induction false} CloseOrderFrom(before: seq<Prepared>, expected: TagMap, i: nat, h: Handle)
    requires i <= |before| && h in CloseOrder(before, expected, i)
    ensures exists k :: i <= k < |before| && before[k].tag in expected && expected[before[k].tag] == h
    decreases |before| - i
  {
    if i < |before| && h in CloseOrder(before, expected, i + 1) {
      CloseOrderFrom(before, expected, i + 1, h);
    }
  }

  /** Dependents first: nothing is given back before an outbound that depended
      on it. */
  lemma {:induction false} DependentsFirst(before: seq<Prepared>, expected: TagMap, i: nat, a: nat, b: nat)
    requires Topological(before) && PS.DistinctTags(before) && i <= |before|
    requires forall t :: t in expected ==> expected[t].tag == t
    requires a < b < |CloseOrder(before, expected, i)|
    ensures var r := CloseOrder(before, expected, i);
            r[b].tag in PS.ByTag(before) && r[a].tag !in PS.ByTag(before)[r[b].tag].dependencies
    decreases |before| - i
  {
    var rest := CloseOrder(before, expected, i + 1);
    if b < |rest| {
      DependentsFirst(before, expected, i + 1, a, b);
    } else {
      LaterIsNoDependency(before, expected, i, rest[a]);
      ByTagAt(before, i);
    }
  }

  lemma LaterIsNoDependency(before: seq<Prepared>, expected: TagMap, i: nat, h: Handle)
    requires Topological(before) && i < |before| && h in CloseOrder(before, expected, i + 1)
    requires forall t :: t in expected ==> expected[t].tag == t
    ensures h.tag !in before[i].dependencies
  {
    CloseOrderFrom(before, expected, i + 1, h);
    var k :| i + 1 <= k < |before| && before[k].tag in expected && expected[before[k].tag] == h;
  }

  lemma ByTagAt(list: seq<Prepared>, i: nat)
    requires PS.DistinctTags(list) && i < |list|
    ensures list[i].tag in PS.ByTag(list) && PS.ByTag(list)[list[i].tag] == list[i]
  {
    var e := PS.ByTag(list)[list[i].tag];
    var k :| 0 <= k < |list| && list[k] == e;
  }

  /* The transaction. */

  /** The old outbounds as the registry has them now. */
  ghost predicate Current(expected: TagMap, byTag: TagMap) {
    forall t :: t in expected && t in byTag ==> expected[t] == byTag[t]
  }

  /** The old outbounds to take out, each as it is found now. */
  function ExpectedOf(before: seq<Prepared>, affected: set<string>, byTag: TagMap, endpoints: TagMap): TagMap {
    map t | t in affected * PS.TagSet(before) && Resolves(byTag, endpoints, t) :: if t in byTag then byTag[t] else endpoints[t]
  }

  lemma ExpectedMore(before: seq<Prepared>, i: nat, affected: set<string>, byTag: TagMap, endpoints: TagMap)
    requires i < |before|
    ensures var tag := before[i].tag;
            ExpectedOf(before[..i + 1], affected, byTag, endpoints)
            == if tag in affected && Resolves(byTag, endpoints, tag)
               then ExpectedOf(before[..i], affected, byTag, endpoints)[tag := if tag in byTag then byTag[tag] else endpoints[tag]]
               else ExpectedOf(before[..i], affected, byTag, endpoints)
  {
    TagsUpTo(before, i);
  }

  method CollectExpected(m: Manager, before: seq<Prepared>, affected: set<string>) returns (r: Result<TagMap, string>)
    requires m.Valid()
    ensures r.Ok? ==> r.value.Keys == affected * PS.TagSet(before) && Current(r.value, m.outboundByTag)
    ensures r.Ok? ==> r.value == ExpectedOf(before, affected, m.outboundByTag, m.endpoints)
    ensures r.Err? <==> exists e :: e in before && e.tag in affected && !Resolves(m.outboundByTag, m.endpoints, e.tag)
  {
    var expected: TagMap := map[];
    for i := 0 to |before|
      invariant expected.Keys == affected * PS.TagSet(before[..i])
      invariant expected == ExpectedOf(before[..i], affected, m.outboundByTag, m.endpoints)
      invariant forall k :: 0 <= k < i && before[k].tag in affected ==> Resolves(m.outboundByTag, m.endpoints, before[k].tag)
    {
      TagsUpTo(before, i);
      ExpectedMore(before, i, affected, m.outboundByTag, m.endpoints);
      if before[i].tag in affected {
        var current := m.Outbound(before[i].tag);
        if current.None? {
          assert before[i] in before;
          return Err("provider outbound not found");
        }
        expected := expected[before[i].tag := current.value];
      }
    }
    assert before[..|before|] == before;
    return Ok(expected);
  }

  method ReplacedOutbounds(before: seq<Prepared>, expected: TagMap) returns (replaced: seq<Handle>)
    ensures replaced == CloseOrder(before, expected, 0)
  {
    replaced := [];
    for i := |before| downto 0
      invariant replaced == CloseOrder(before, expected, i)
    {
      if before[i].tag in expected {
        replaced := replaced + [expected[before[i].tag]];
      }
    }
  }

  datatype Applied = Applied(replaced: seq<Handle>, applied: seq<Prepared>)

  /** The candidates that went in: what was built for each applied outbound
      that had to be rebuilt. */
  ghost predicate CandidatesAre(applied: seq<Prepared>, affected: set<string>, build: Prepared -> Option<Handle>, candidates: seq<Handle>) {
    forall h :: h in candidates <==> exists e :: e in applied && e.tag in affected && build(e) == Some(h)
  }

  ghost predicate NoneDependsOn(applied: seq<Prepared>, invalid: set<string>) {
    forall e, d :: e in applied && d in e.dependencies ==> d !in invalid
  }

  function AppliedOf(after: seq<Prepared>, invalid: set<string>): seq<Prepared> {
    Select(after, PS.TagSet(after) - invalid)
  }

  lemma AppliedMember(after: seq<Prepared>, invalid: set<string>, e: Prepared)
    ensures e in AppliedOf(after, invalid) <==> e in after && e.tag !in invalid
  {
    SelectMembers(after, PS.TagSet(after) - invalid);
    if e in after {
      var k :| 0 <= k < |after| && after[k] == e;
    }
  }

  lemma {:induction false} SelectAll(list: seq<Prepared>, tags: set<string>)
    requires PS.TagSet(list) <= tags
    ensures Select(list, tags) == list
  {
    if list != [] {
      var last := |list| - 1;
      assert list == list[..last] + [list[last]];
      PS.TagSetStep(list[..last], list[last]);
      SelectAll(list[..last], tags);
    }
  }

  lemma SameTagSameOutbound(list: seq<Prepared>, e: Prepared, f: Prepared)
    requires PS.DistinctTags(list) && e in list && f in list && e.tag == f.tag
    ensures e == f
  {
    var i :| 0 <= i < |list| && list[i] == e;
    var j :| 0 <= j < |list| && list[j] == f;
  }

  /** A good, rebuilt outbound has its candidate. */
  lemma CandidateOf(after: seq<Prepared>, affected: set<string>, built: seq<Built>, build: Prepared -> Option<Handle>,
                    invalid: set<string>, e: Prepared) returns (k: nat)
    requires PS.DistinctTags(after) && BuiltFrom(Select(after, affected), built, build)
    requires Tried(Select(after, affected), |Select(after, affected)|, built, invalid)
    requires e in after && e.tag in affected && e.tag !in invalid
    ensures k < |built| && built[k].prepared == e
  {
    var list := Select(after, affected);
    SelectMembers(after, affected);
    var p :| 0 <= p < |list| && list[p] == e;
    assert IsBuilt(built, e.tag);
    k :| 0 <= k < |built| && built[k].prepared.tag == e.tag;
    SameTagSameOutbound(after, built[k].prepared, e);
  }

  lemma AppliedCandidates(after: seq<Prepared>, affected: set<string>, built: seq<Built>, build: Prepared -> Option<Handle>,
                          invalid: set<string>)
    requires PS.DistinctTags(after) && BuiltFrom(Select(after, affected), built, build)
    requires Tried(Select(after, affected), |Select(after, affected)|, built, invalid)
    ensures CandidatesAre(AppliedOf(after, invalid), affected, build, Sorted(built, invalid, true))
  {
    var applied, candidates := AppliedOf(after, invalid), Sorted(built, invalid, true);
    SelectMembers(after, affected);
    forall h ensures h in candidates <==> exists e :: e in applied && e.tag in affected && build(e) == Some(h) {
      SortedMembers(built, invalid, true, h);
      if h in candidates {
        var k :| 0 <= k < |built| && built[k].handle == h && built[k].prepared.tag !in invalid;
        AppliedMember(after, invalid, built[k].prepared);
      }
      if e :| e in applied && e.tag in affected && build(e) == Some(h) {
        AppliedMember(after, invalid, e);
        var k := CandidateOf(after, affected, built, build, invalid, e);
      }
    }
  }

  lemma AppliedSound(after: seq<Prepared>, affected: set<string>, built: seq<Built>,
                     build: Prepared -> Option<Handle>, invalid: set<string>)
    requires PS.DistinctTags(after) && BuiltFrom(Select(after, affected), built, build)
    requires Tried(Select(after, affected), |Select(after, affected)|, built, invalid)
    requires Closed(after, affected) && invalid <= affected && Sound(built, invalid)
    ensures NoneDependsOn(AppliedOf(after, invalid), invalid)
  {
    forall e, d | e in AppliedOf(after, invalid) && d in e.dependencies ensures d !in invalid {
      AppliedMember(after, invalid, e);
      if e.tag in affected {
        var k := CandidateOf(after, affected, built, build, invalid, e);
        assert DependsOnly(built[k], invalid);
      } else {
        UnaffectedDependency(after, affected, e, d);
      }
    }
  }

  /** Why an outbound to be rebuilt is not applied: it cannot be built, depends
      on one that is invalid or found nowhere, or fails to start. */
  ghost predicate Rejected(e: Prepared, rebuilt: set<string>, build: Prepared -> Option<Handle>, invalid: set<string>,
                           byTag: TagMap, endpoints: TagMap, stages: nat, startOk: (Handle, nat) -> bool, done: bool)
  {
    || build(e).None?
    || (exists d :: d in e.dependencies && Unavailable(d, rebuilt, invalid, byTag, endpoints))
    || (exists stage :: 0 <= stage < stages && FailsAt(Candidate(e, build), stage, startOk, done))
  }

  ghost predicate Unavailable(d: string, rebuilt: set<string>, invalid: set<string>, byTag: TagMap, endpoints: TagMap) {
    d in invalid || (d !in rebuilt && !Resolves(byTag, endpoints, d))
  }

  lemma CandidateIs(list: seq<Prepared>, built: seq<Built>, build: Prepared -> Option<Handle>, e: Prepared) returns (k: nat)
    requires PS.DistinctTags(list) && BuiltFrom(list, built, build) && e in list && IsBuilt(built, e.tag)
    ensures k < |built| && built[k] == Candidate(e, build) && build(e).Some?
  {
    k :| 0 <= k < |built| && built[k].prepared.tag == e.tag;
    SameTagSameOutbound(list, built[k].prepared, e);
  }

  lemma InvalidHasReason(list: seq<Prepared>, built: seq<Built>, build: Prepared -> Option<Handle>, failed: set<string>, invalid: set<string>,
                         byTag: TagMap, endpoints: TagMap, stages: nat, startOk: (Handle, nat) -> bool, done: bool, e: Prepared)
    requires PS.DistinctTags(list) && BuiltFrom(list, built, build) && Tried(list, |list|, built, failed)
    requires Judged(list, |list|, build, built, failed, byTag, endpoints)
    requires StagesResult(built, failed, invalid, stages, startOk, done) && failed <= invalid
    requires e in list && e.tag in invalid
    ensures Rejected(e, PS.TagSet(list), build, invalid, byTag, endpoints, stages, startOk, done)
  {
    var p :| 0 <= p < |list| && list[p] == e;
    if e.tag in failed {
      assert Unbuildable(list[p], build, built, failed, byTag, endpoints);
      if build(e).Some? {
        var d :| d in e.dependencies && !Usable(d, built, failed, byTag, endpoints);
        UnusableIsUnavailable(list, built, failed, invalid, byTag, endpoints, d);
      }
    } else {
      assert IsBuilt(built, list[p].tag);
      var k := CandidateIs(list, built, build, e);
      assert Unstartable(built[k], invalid, stages, startOk, done);
      if BadDependency(built[k], invalid) {
        var d :| d in e.dependencies && d in invalid;
        assert Unavailable(d, PS.TagSet(list), invalid, byTag, endpoints);
      }
    }
  }

  lemma UnusableIsUnavailable(list: seq<Prepared>, built: seq<Built>, failed: set<string>, invalid: set<string>,
                              byTag: TagMap, endpoints: TagMap, d: string)
    requires Tried(list, |list|, built, failed) && failed <= invalid && !Usable(d, built, failed, byTag, endpoints)
    ensures Unavailable(d, PS.TagSet(list), invalid, byTag, endpoints)
  {
    if d in PS.TagSet(list) {
      var k :| 0 <= k < |list| && list[k].tag == d;
      assert d in failed || IsBuilt(built, d);
    }
  }

  lemma ReasonIsInvalid(list: seq<Prepared>, built: seq<Built>, build: Prepared -> Option<Handle>, failed: set<string>, invalid: set<string>,
                        byTag: TagMap, endpoints: TagMap, stages: nat, startOk: (Handle, nat) -> bool, done: bool, e: Prepared)
    requires PS.DistinctTags(list) && BuiltFrom(list, built, build) && Tried(list, |list|, built, failed)
    requires Judged(list, |list|, build, built, failed, byTag, endpoints)
    requires StagesResult(built, failed, invalid, stages, startOk, done) && failed <= invalid && Sound(built, invalid)
    requires e in list && e.tag !in invalid
    ensures !Rejected(e, PS.TagSet(list), build, invalid, byTag, endpoints, stages, startOk, done)
  {
    var p :| 0 <= p < |list| && list[p] == e;
    assert !Unbuildable(list[p], build, built, failed, byTag, endpoints);
    assert IsBuilt(built, list[p].tag);
    var k := CandidateIs(list, built, build, e);
    assert DependsOnly(built[k], invalid);
    forall d | d in e.dependencies ensures !Unavailable(d, PS.TagSet(list), invalid, byTag, endpoints) {
      assert Usable(d, built, failed, byTag, endpoints);
      if IsBuilt(built, d) {
        var m :| 0 <= m < |built| && built[m].prepared.tag == d;
        TagInList(list, built, build, m);
      }
    }
    assert forall stage :: 0 <= stage < stages ==> !FailsAt(built[k], stage, startOk, done);
  }

  /** Exactly the rejected ones of the outbounds to rebuild are invalid. */
  ghost predicate Reasons(after: seq<Prepared>, affected: set<string>, build: Prepared -> Option<Handle>, invalid: set<string>,
                          byTag: TagMap, endpoints: TagMap, stages: nat, startOk: (Handle, nat) -> bool, done: bool)
  {
    forall e :: e in after && e.tag in affected ==>
      (e.tag in invalid
       <==> Rejected(e, PS.TagSet(Select(after, affected)), build, invalid, byTag, endpoints, stages, startOk, done))
  }

  lemma ReasonsHold(after: seq<Prepared>, affected: set<string>, built: seq<Built>, build: Prepared -> Option<Handle>,
                    failed: set<string>, invalid: set<string>, byTag: TagMap, endpoints: TagMap, stages: nat,
                    startOk: (Handle, nat) -> bool, done: bool)
    requires var list := Select(after, affected);
             && PS.DistinctTags(list) && BuiltFrom(list, built, build) && Tried(list, |list|, built, failed)
             && Judged(list, |list|, build, built, failed, byTag, endpoints)
    requires StagesResult(built, failed, invalid, stages, startOk, done) && failed <= invalid && Sound(built, invalid)
    ensures Reasons(after, affected, build, invalid, byTag, endpoints, stages, startOk, done)
  {
    var list := Select(after, affected);
    SelectMembers(after, affected);
    forall e | e in after && e.tag in affected
      ensures e.tag in invalid <==> Rejected(e, PS.TagSet(list), build, invalid, byTag, endpoints, stages, startOk, done)
    {
      if e.tag in invalid {
        InvalidHasReason(list, built, build, failed, invalid, byTag, endpoints, stages, startOk, done, e);
      } else {
        ReasonIsInvalid(list, built, build, failed, invalid, byTag, endpoints, stages, startOk, done, e);
      }
    }
  }

  /** The outbounds to rebuild that are not applied, each judged by those before it. */
  ghost function RejectedIn(list: seq<Prepared>, rebuilt: set<string>, build: Prepared -> Option<Handle>, byTag: TagMap,
                            endpoints: TagMap, stages: nat, startOk: (Handle, nat) -> bool, done: bool): set<string>
  {
    if list == [] then {}
    else
      var last := list[|list| - 1];
      var earlier := RejectedIn(list[..|list| - 1], rebuilt, build, byTag, endpoints, stages, startOk, done);
      if Rejected(last, rebuilt, build, earlier, byTag, endpoints, stages, startOk, done) then earlier + {last.tag} else earlier
  }

  /** Only the invalid ones before it count for an outbound. */
  lemma EarlierCount(list: seq<Prepared>, i: nat, rebuilt: set<string>, build: Prepared -> Option<Handle>, invalid: set<string>,
                     byTag: TagMap, endpoints: TagMap, stages: nat, startOk: (Handle, nat) -> bool, done: bool)
    requires Topological(list) && i < |list| && invalid <= PS.TagSet(list)
    ensures Rejected(list[i], rebuilt, build, invalid * PS.TagSet(list[..i]), byTag, endpoints, stages, startOk, done)
         == Rejected(list[i], rebuilt, build, invalid, byTag, endpoints, stages, startOk, done)
  {
    forall d | d in list[i].dependencies && d in invalid ensures d in PS.TagSet(list[..i]) {
      var k :| 0 <= k < |list| && list[k].tag == d;
      assert k < i;
      assert list[..i][k].tag == d;
    }
    forall d | d in list[i].dependencies
      ensures Unavailable(d, rebuilt, invalid * PS.TagSet(list[..i]), byTag, endpoints)
           == Unavailable(d, rebuilt, invalid, byTag, endpoints)
    {
    }
  }

  ghost predicate ReasonsIn(list: seq<Prepared>, rebuilt: set<string>, build: Prepared -> Option<Handle>, invalid: set<string>,
                            byTag: TagMap, endpoints: TagMap, stages: nat, startOk: (Handle, nat) -> bool, done: bool)
  {
    forall k :: 0 <= k < |list| ==>
      (list[k].tag in invalid <==> Rejected(list[k], rebuilt, build, invalid, byTag, endpoints, stages, startOk, done))
  }

  /** The invalid outbounds: those of the list to rebuild that are rejected. */
  ghost function NotApplied(after: seq<Prepared>, affected: set<string>, build: Prepared -> Option<Handle>, byTag: TagMap,
                            endpoints: TagMap, stages: nat, startOk: (Handle, nat) -> bool, done: bool): set<string>
  {
    RejectedIn(Select(after, affected), PS.TagSet(Select(after, affected)), build, byTag, endpoints, stages, startOk, done)
  }

  /** The rejected ones after each outbound of the list. */
  ghost predicate Verdicts(list: seq<Prepared>, sets: seq<set<string>>, rebuilt: set<string>, build: Prepared -> Option<Handle>,
                           byTag: TagMap, endpoints: TagMap, stages: nat, startOk: (Handle, nat) -> bool, done: bool)
  {
    && |sets| == |list| + 1 && sets[0] == {}
    && forall k :: 0 <= k < |list| ==>
         var rejected := Rejected(list[k], rebuilt, build, sets[k], byTag, endpoints, stages, startOk, done);
         sets[k + 1] == if rejected then sets[k] + {list[k].tag} else sets[k]
  }

  lemma {:induction false} VerdictsReached(list: seq<Prepared>, rebuilt: set<string>, build: Prepared -> Option<Handle>, byTag: TagMap,
                                           endpoints: TagMap, stages: nat, startOk: (Handle, nat) -> bool, done: bool)
    returns (sets: seq<set<string>>)
    ensures Verdicts(list, sets, rebuilt, build, byTag, endpoints, stages, startOk, done)
    ensures sets[|list|] == RejectedIn(list, rebuilt, build, byTag, endpoints, stages, startOk, done)
  {
    if list == [] {
      sets := [{}];
    } else {
      var front := list[..|list| - 1];
      var earlier := VerdictsReached(front, rebuilt, build, byTag, endpoints, stages, startOk, done);
      sets := earlier + [RejectedIn(list, rebuilt, build, byTag, endpoints, stages, startOk, done)];
      assert forall k :: 0 <= k < |front| ==> front[k] == list[k];
    }
  }

  lemma TagsUpTo(list: seq<Prepared>, j: nat)
    requires j < |list|
    ensures PS.TagSet(list[..j + 1]) == PS.TagSet(list[..j]) + {list[j].tag}
  {
    assert list[..j + 1] == list[..j] + [list[j]];
    PS.TagSetStep(list[..j], list[j]);
  }

  /** A set that meets the reasons is the verdict on every part of the list. */
  lemma {:induction false} VerdictUpTo(list: seq<Prepared>, sets: seq<set<string>>, i: nat, rebuilt: set<string>,
                                       build: Prepared -> Option<Handle>, invalid: set<string>, byTag: TagMap, endpoints: TagMap,
                                       stages: nat, startOk: (Handle, nat) -> bool, done: bool)
    requires Topological(list) && i <= |list| && invalid <= PS.TagSet(list)
    requires Verdicts(list, sets, rebuilt, build, byTag, endpoints, stages, startOk, done)
    requires ReasonsIn(list, rebuilt, build, invalid, byTag, endpoints, stages, startOk, done)
    ensures sets[i] == invalid * PS.TagSet(list[..i])
  {
    if i > 0 {
      VerdictUpTo(list, sets, i - 1, rebuilt, build, invalid, byTag, endpoints, stages, startOk, done);
      EarlierCount(list, i - 1, rebuilt, build, invalid, byTag, endpoints, stages, startOk, done);
      TagsUpTo(list, i - 1);
    }
  }

  ghost predicate Grows(list: seq<Prepared>, sets: seq<set<string>>) {
    && |sets| == |list| + 1 && sets[0] == {}
    && forall k :: 0 <= k < |list| ==> sets[k] <= sets[k + 1] <= sets[k] + {list[k].tag}
  }

  lemma {:induction false} GrowsWithin(list: seq<Prepared>, sets: seq<set<string>>, j: nat)
    requires Grows(list, sets) && j <= |list|
    ensures sets[j] <= PS.TagSet(list[..j])
  {
    if j > 0 {
      GrowsWithin(list, sets, j - 1);
      TagsUpTo(list, j - 1);
      assert sets[j - 1 + 1] <= sets[j - 1] + {list[j - 1].tag};
    }
  }

  /** What is rejected later changes no earlier verdict. */
  lemma {:induction false} GrowsPrefix(list: seq<Prepared>, sets: seq<set<string>>, i: nat, j: nat)
    requires Grows(list, sets) && PS.DistinctTags(list) && i <= j <= |list|
    ensures sets[j] * PS.TagSet(list[..i]) == sets[i]
    decreases j
  {
    if i == j {
      GrowsWithin(list, sets, j);
    } else {
      GrowsPrefix(list, sets, i, j - 1);
      assert sets[j - 1] <= sets[j - 1 + 1] <= sets[j - 1] + {list[j - 1].tag};
      assert list[j - 1].tag !in PS.TagSet(list[..i]) by {
        assert forall k :: 0 <= k < i ==> list[..i][k] == list[k];
      }
    }
  }

  lemma VerdictHasReason(list: seq<Prepared>, sets: seq<set<string>>, rebuilt: set<string>, build: Prepared -> Option<Handle>,
                         byTag: TagMap, endpoints: TagMap, stages: nat, startOk: (Handle, nat) -> bool, done: bool, k: nat)
    requires Topological(list) && PS.DistinctTags(list) && k < |list|
    requires Verdicts(list, sets, rebuilt, build, byTag, endpoints, stages, startOk, done)
    ensures list[k].tag in sets[|list|]
            <==> Rejected(list[k], rebuilt, build, sets[|list|], byTag, endpoints, stages, startOk, done)
  {
    var invalid := sets[|list|];
    assert Grows(list, sets);
    GrowsWithin(list, sets, |list|);
    assert list[..|list|] == list;
    GrowsPrefix(list, sets, k, |list|);
    GrowsPrefix(list, sets, k + 1, |list|);
    EarlierCount(list, k, rebuilt, build, invalid, byTag, endpoints, stages, startOk, done);
    TagsUpTo(list, k);
    assert list[k].tag !in PS.TagSet(list[..k]) by {
      assert forall i :: 0 <= i < k ==> list[..k][i] == list[i];
    }
  }

  /** The reasons decide which outbounds are invalid: one set meets them, and only one. */
  lemma ReasonsDecide(after: seq<Prepared>, affected: set<string>, build: Prepared -> Option<Handle>, invalid: set<string>,
                      byTag: TagMap, endpoints: TagMap, stages: nat, startOk: (Handle, nat) -> bool, done: bool)
    requires Topological(after) && PS.DistinctTags(after)
    ensures invalid == NotApplied(after, affected, build, byTag, endpoints, stages, startOk, done)
            <==> && invalid <= PS.TagSet(Select(after, affected))
                 && Reasons(after, affected, build, invalid, byTag, endpoints, stages, startOk, done)
  {
    var list := Select(after, affected);
    var rebuilt := PS.TagSet(list);
    SelectTopological(after, affected);
    ReasonsSelected(after, affected, build, invalid, byTag, endpoints, stages, startOk, done);
    var sets := VerdictsReached(list, rebuilt, build, byTag, endpoints, stages, startOk, done);
    assert list[..|list|] == list;
    if invalid == sets[|list|] {
      assert Grows(list, sets);
      GrowsWithin(list, sets, |list|);
      forall k | 0 <= k < |list|
        ensures list[k].tag in invalid <==> Rejected(list[k], rebuilt, build, invalid, byTag, endpoints, stages, startOk, done)
      {
        VerdictHasReason(list, sets, rebuilt, build, byTag, endpoints, stages, startOk, done, k);
      }
    }
    if invalid <= rebuilt && Reasons(after, affected, build, invalid, byTag, endpoints, stages, startOk, done) {
      VerdictUpTo(list, sets, |list|, rebuilt, build, invalid, byTag, endpoints, stages, startOk, done);
    }
  }

  lemma ReasonsSelected(after: seq<Prepared>, affected: set<string>, build: Prepared -> Option<Handle>, invalid: set<string>,
                        byTag: TagMap, endpoints: TagMap, stages: nat, startOk: (Handle, nat) -> bool, done: bool)
    ensures Reasons(after, affected, build, invalid, byTag, endpoints, stages, startOk, done)
            <==> ReasonsIn(Select(after, affected), PS.TagSet(Select(after, affected)), build, invalid,
                           byTag, endpoints, stages, startOk, done)
  {
    var list := Select(after, affected);
    SelectMembers(after, affected);
    assert forall k :: 0 <= k < |list| ==> list[k] in list;
    if ReasonsIn(list, PS.TagSet(list), build, invalid, byTag, endpoints, stages, startOk, done) {
      forall e | e in after && e.tag in affected
        ensures e.tag in invalid <==> Rejected(e, PS.TagSet(list), build, invalid, byTag, endpoints, stages, startOk, done)
      {
        var k :| 0 <= k < |list| && list[k] == e;
      }
    }
  }

  /** What a successful replacement did, and no more: exactly the affected old
      outbounds are out and what was built for the affected applied ones is in,
      nothing applied depends on an invalid one, and the replaced are given back
      last created first. */
  ghost predicate Done(registry: Registry, registry': Registry, defaultTag: string,
                       before: seq<Prepared>, after: seq<Prepared>, build: Prepared -> Option<Handle>,
                       affected: set<string>, invalid: set<string>, expected: TagMap, candidates: seq<Handle>, r: Applied)
  {
    && LeastCover(before, after, affected) && invalid <= affected
    && r.applied == AppliedOf(after, invalid) && NoneDependsOn(r.applied, invalid)
    && expected.Keys == affected * PS.TagSet(before)
    && CandidatesAre(r.applied, affected, build, candidates)
    && r.replaced == CloseOrder(before, expected, 0)
    && (if affected == {} then registry' == registry
        else
          && (forall t :: t in expected ==> t in registry.byTag && registry.byTag[t] == expected[t])
          && Swapped(registry, defaultTag, expected, candidates, registry'))
  }

  /** The ghost results are what the inputs make them. */
  ghost predicate Decided(registry: Registry, endpoints: TagMap, before: seq<Prepared>, after: seq<Prepared>,
                          build: Prepared -> Option<Handle>, stages: nat, startOk: (Handle, nat) -> bool, done: bool,
                          affected: set<string>, invalid: set<string>, expected: TagMap, candidates: seq<Handle>)
  {
    && invalid == NotApplied(after, affected, build, registry.byTag, endpoints, stages, startOk, done)
    && expected == ExpectedOf(before, affected, registry.byTag, endpoints)
    && candidates == Rebuilt(Select(after, affected), invalid, build)
  }

  /** Nothing of the new list is usable, or the registry does not accept the swap. */
  ghost predicate NoSwap(registry: Registry, endpoints: TagMap, before: seq<Prepared>, after: seq<Prepared>,
                         build: Prepared -> Option<Handle>, stages: nat, startOk: (Handle, nat) -> bool, done: bool,
                         affected: set<string>)
  {
    var invalid := NotApplied(after, affected, build, registry.byTag, endpoints, stages, startOk, done);
    || (after != [] && AppliedOf(after, invalid) == [])
    || !SwapAllowed(registry, endpoints, ExpectedOf(before, affected, registry.byTag, endpoints),
                    Rebuilt(Select(after, affected), invalid, build))
  }

  /** Why a replacement is refused: something is affected, and an affected old
      outbound is gone, there is nothing to build with, or there is no swap. */
  ghost predicate Refused(registry: Registry, endpoints: TagMap, registered: bool, before: seq<Prepared>, after: seq<Prepared>,
                          build: Prepared -> Option<Handle>, stages: nat, startOk: (Handle, nat) -> bool, done: bool,
                          affected: set<string>)
  {
    && affected != {}
    && (|| (exists e :: e in before && e.tag in affected && !Resolves(registry.byTag, endpoints, e.tag))
        || !registered
        || NoSwap(registry, endpoints, before, after, build, stages, startOk, done, affected))
  }

  /** Builds and starts the candidates; the bad ones are taken down again. */
  method StageCandidates(m: Manager, sc: SF.Scopes, x: nat, stages: nat, after: seq<Prepared>, affected: set<string>,
                         build: Prepared -> Option<Handle>, startOk: (Handle, nat) -> bool, registers: (Handle, nat) -> nat)
    returns (candidates: seq<Handle>, invalid: set<string>)
    requires m.Valid() && SF.Inv(sc.Abs()) && x < |sc.scopes| && stages > 0
    requires Topological(after) && PS.DistinctTags(after) && Closed(after, affected)
    requires FreshBuild(after, build, StartedIn(sc.scopes, x))
    modifies sc
    ensures SF.Inv(sc.Abs()) && x < |sc.scopes| && invalid <= affected
    ensures CandidatesAre(AppliedOf(after, invalid), affected, build, candidates)
    ensures NoneDependsOn(AppliedOf(after, invalid), invalid)
    ensures StartedIn(sc.scopes, x) == StartedIn(old(sc.scopes), x) + Ids(candidates)
    ensures StartedIn(sc.scopes, x) - Ids(candidates) == StartedIn(old(sc.scopes), x)
    ensures Reasons(after, affected, build, invalid, m.outboundByTag, m.endpoints, stages, startOk, old(IsDone(sc, x)))
    ensures invalid == NotApplied(after, affected, build, m.outboundByTag, m.endpoints, stages, startOk, old(IsDone(sc, x)))
    ensures candidates == Rebuilt(Select(after, affected), invalid, build)
  {
    var list := Select(after, affected);
    ghost var started := StartedIn(sc.scopes, x);
    SelectTopological(after, affected);
    SelectMembers(after, affected);
    var built, failed := BuildCandidates(m, list, build);
    ghost var done := IsDone(sc, x);
    invalid := RunStages(sc, x, stages, list, built, failed, build, startOk, registers, started);
    ReasonsHold(after, affected, built, build, failed, invalid, m.outboundByTag, m.endpoints, stages, startOk, done);
    ReasonsDecide(after, affected, build, invalid, m.outboundByTag, m.endpoints, stages, startOk, done);
    SortedIsRebuilt(list, failed, invalid, build);
    candidates := Sorted(built, invalid, true);
    SelectedFresh(after, affected, build, started);
    ScopeAfter(list, built, build, invalid, sc.scopes, x, started);
    RemoveOutboundsReverse(sc, x, Sorted(built, invalid, false));
    assert Tried(list, |list|, built, invalid);
    SelectedTags(after, affected);
    AppliedCandidates(after, affected, built, build, invalid);
    AppliedSound(after, affected, built, build, invalid);
  }

  lemma SelectedFresh(after: seq<Prepared>, affected: set<string>, build: Prepared -> Option<Handle>, started: set<nat>)
    requires FreshBuild(after, build, started)
    ensures FreshBuild(Select(after, affected), build, started)
  {
    SelectMembers(after, affected);
  }

  lemma SelectedTags(after: seq<Prepared>, affected: set<string>)
    ensures PS.TagSet(Select(after, affected)) <= affected
  {
    SelectMembers(after, affected);
    forall t | t in PS.TagSet(Select(after, affected)) ensures t in affected {
      var k :| 0 <= k < |Select(after, affected)| && Select(after, affected)[k].tag == t;
      assert Select(after, affected)[k] in Select(after, affected);
    }
  }

  /** The least cover names outbounds of the two lists only. */
  lemma AffectedWithin(before: seq<Prepared>, after: seq<Prepared>, affected: set<string>)
    requires LeastCover(before, after, affected)
    ensures affected <= PS.TagSet(before) + PS.TagSet(after)
  {
    var inside := affected * (PS.TagSet(before) + PS.TagSet(after));
    PS.TagsOfByTag(before);
    PS.TagsOfByTag(after);
    assert Covers(before, after, inside) by {
      forall t | Changed(before, after, t) ensures t in inside {}
      ClosedInside(before, affected, inside);
      ClosedInside(after, affected, inside);
    }
  }

  lemma ClosedInside(list: seq<Prepared>, affected: set<string>, inside: set<string>)
    requires Closed(list, affected) && inside <= affected && affected * PS.TagSet(list) <= inside
    ensures Closed(list, inside)
  {
    forall k | 0 <= k < |list| && Depends(list[k], inside) ensures list[k].tag in inside {
      DependsMonotone(list[k], inside, affected);
    }
  }

  lemma {:induction false} CloseNothing(before: seq<Prepared>, expected: TagMap, i: nat)
    requires i <= |before| && expected.Keys == {}
    ensures CloseOrder(before, expected, i) == []
    decreases |before| - i
  {
    if i < |before| {
      CloseNothing(before, expected, i + 1);
    }
  }

  lemma SelectNone(after: seq<Prepared>)
    ensures Select(after, {}) == []
  {
    SelectMembers(after, {});
    var r := Select(after, {});
    assert forall k :: 0 <= k < |r| ==> r[k] in r;
  }

  lemma SelectSome(after: seq<Prepared>, affected: set<string>, tag: string)
    requires tag in affected && tag in PS.TagSet(after)
    ensures Select(after, affected) != []
  {
    SelectMembers(after, affected);
    var k :| 0 <= k < |after| && after[k].tag == tag;
    assert after[k] in after;
  }

  /** Nothing to take out and nothing to build means nothing is affected. */
  lemma NothingAffected(before: seq<Prepared>, after: seq<Prepared>, affected: set<string>, expected: TagMap)
    requires LeastCover(before, after, affected) && expected.Keys == affected * PS.TagSet(before)
    ensures affected == {} <==> expected.Keys == {} && Select(after, affected) == []
  {
    AffectedWithin(before, after, affected);
    if affected == {} {
      SelectNone(after);
    } else if expected.Keys == {} {
      var t :| t in affected;
      assert t !in expected.Keys;
      SelectSome(after, affected, t);
    }
  }

  lemma NothingDone(registry: Registry, defaultTag: string, before: seq<Prepared>, after: seq<Prepared>,
                    build: Prepared -> Option<Handle>, expected: TagMap)
    requires LeastCover(before, after, {}) && expected.Keys == {}
    ensures Done(registry, registry, defaultTag, before, after, build, {}, {}, expected, [], Applied([], after))
  {
    SelectAll(after, PS.TagSet(after) - {});
    CloseNothing(before, expected, 0);
  }

  /** Swaps the staged candidates in, or takes them down again. */
  method Commit(m: Manager, sc: SF.Scopes, x: nat, expected: TagMap, staged: seq<Handle>, ghost started: set<nat>)
    returns (r: Result<TagMap, string>)
    requires m.Valid() && SF.Inv(sc.Abs()) && x < |sc.scopes|
    requires StartedIn(sc.scopes, x) == started + Ids(staged) && StartedIn(sc.scopes, x) - Ids(staged) == started
    modifies m, sc
    ensures m.Valid() && SF.Inv(sc.Abs()) && x < |sc.scopes|
    ensures r.Err? ==> m.Abs() == old(m.Abs()) && StartedIn(sc.scopes, x) == started
    ensures r.Err? <==> !SwapAllowed(old(m.Abs()), m.endpoints, expected, staged)
    ensures r.Ok? ==> r.value == expected && StartedIn(sc.scopes, x) == started + Ids(staged)
    ensures r.Ok? ==> Swapped(old(m.Abs()), m.defaultTag, expected, staged, m.Abs())
    ensures r.Ok? ==> forall t :: t in expected ==> t in old(m.outboundByTag) && old(m.outboundByTag)[t] == expected[t]
    ensures KeepsDependencies(old(m.outboundByTag), m.outboundByTag, m.endpoints)
  {
    r := m.SwapBatch(expected, staged);
    if r.Err? {
      RemoveOutboundsReverse(sc, x, staged);
    }
  }

  /** All or nothing, and refused exactly for a reason. On an error the registry is what it was and no candidate
      is left in the scope; on success the registry is the old one with exactly
      the affected outbounds exchanged, and the scope holds the candidates too. */
  method ReplaceStartedOutbounds(m: Manager, sc: SF.Scopes, x: nat, stages: nat, registered: bool,
                                 before: seq<Prepared>, after: seq<Prepared>, build: Prepared -> Option<Handle>,
                                 startOk: (Handle, nat) -> bool, registers: (Handle, nat) -> nat)
    returns (r: Result<Applied, string>,
             ghost affected: set<string>, ghost invalid: set<string>, ghost expected: TagMap, ghost candidates: seq<Handle>)
    requires m.Valid() && SF.Inv(sc.Abs()) && x < |sc.scopes| && stages > 0
    requires Topological(after) && PS.DistinctTags(after)
    requires FreshBuild(after, build, StartedIn(sc.scopes, x))
    modifies m, sc
    ensures m.Valid() && SF.Inv(sc.Abs()) && x < |sc.scopes|
    ensures r.Err? ==> m.Abs() == old(m.Abs()) && StartedIn(sc.scopes, x) == StartedIn(old(sc.scopes), x)
    ensures LeastCover(before, after, affected) && Current(expected, old(m.outboundByTag))
    ensures r.Err? <==> Refused(old(m.Abs()), m.endpoints, registered, before, after, build, stages, startOk, old(IsDone(sc, x)), affected)
    ensures r.Ok? ==> Done(old(m.Abs()), m.Abs(), m.defaultTag, before, after, build, affected, invalid, expected, candidates, r.value)
    ensures r.Ok? ==> StartedIn(sc.scopes, x) == StartedIn(old(sc.scopes), x) + Ids(candidates)
    ensures r.Ok? ==> Reasons(after, affected, build, invalid, old(m.outboundByTag), m.endpoints, stages, startOk, old(IsDone(sc, x)))
    ensures r.Ok? ==> Decided(old(m.Abs()), m.endpoints, before, after, build, stages, startOk, old(IsDone(sc, x)),
                              affected, invalid, expected, candidates)
    ensures KeepsDependencies(old(m.outboundByTag), m.outboundByTag, m.endpoints)
  {
    affected, invalid, expected, candidates := {}, {}, map[], [];
    var tags := AffectedOutbounds(before, after);
    affected := tags;
    var current := CollectExpected(m, before, tags);
    if current.Err? {
      return Err(current.error), affected, invalid, expected, candidates;
    }
    expected := current.value;
    NothingAffected(before, after, tags, expected);
    if |current.value.Keys| + |Select(after, tags)| == 0 {
      NothingDone(m.Abs(), m.defaultTag, before, after, build, expected);
      return Ok(Applied([], after)), affected, invalid, expected, candidates;
    }
    if !registered {
      return Err("missing outbound registry"), affected, invalid, expected, candidates;
    }
    r, invalid, candidates := ReplaceAffected(m, sc, x, stages, before, after, tags, current.value, build, startOk, registers);
  }

  lemma DoneAfterSwap(registry: Registry, registry': Registry, defaultTag: string, before: seq<Prepared>, after: seq<Prepared>,
                      build: Prepared -> Option<Handle>, affected: set<string>, invalid: set<string>, expected: TagMap,
                      candidates: seq<Handle>)
    requires LeastCover(before, after, affected) && invalid <= affected && affected != {}
    requires NoneDependsOn(AppliedOf(after, invalid), invalid) && expected.Keys == affected * PS.TagSet(before)
    requires CandidatesAre(AppliedOf(after, invalid), affected, build, candidates)
    requires forall t :: t in expected ==> t in registry.byTag && registry.byTag[t] == expected[t]
    requires Swapped(registry, defaultTag, expected, candidates, registry')
    ensures Done(registry, registry', defaultTag, before, after, build, affected, invalid, expected, candidates,
                 Applied(CloseOrder(before, expected, 0), AppliedOf(after, invalid)))
  {
  }

  method ReplaceAffected(m: Manager, sc: SF.Scopes, x: nat, stages: nat, before: seq<Prepared>, after: seq<Prepared>,
                         affected: set<string>, expected: TagMap, build: Prepared -> Option<Handle>,
                         startOk: (Handle, nat) -> bool, registers: (Handle, nat) -> nat)
    returns (r: Result<Applied, string>, ghost invalid: set<string>, ghost candidates: seq<Handle>)
    requires m.Valid() && SF.Inv(sc.Abs()) && x < |sc.scopes| && stages > 0
    requires Topological(after) && PS.DistinctTags(after)
    requires FreshBuild(after, build, StartedIn(sc.scopes, x))
    requires LeastCover(before, after, affected) && expected.Keys == affected * PS.TagSet(before) && affected != {}
    requires expected == ExpectedOf(before, affected, m.outboundByTag, m.endpoints)
    modifies m, sc
    ensures m.Valid() && SF.Inv(sc.Abs()) && x < |sc.scopes|
    ensures r.Err? ==> m.Abs() == old(m.Abs()) && StartedIn(sc.scopes, x) == StartedIn(old(sc.scopes), x)
    ensures r.Err? <==> NoSwap(old(m.Abs()), m.endpoints, before, after, build, stages, startOk, old(IsDone(sc, x)), affected)
    ensures r.Ok? ==> Done(old(m.Abs()), m.Abs(), m.defaultTag, before, after, build, affected, invalid, expected, candidates, r.value)
    ensures r.Ok? ==> StartedIn(sc.scopes, x) == StartedIn(old(sc.scopes), x) + Ids(candidates)
    ensures r.Ok? ==> Reasons(after, affected, build, invalid, old(m.outboundByTag), m.endpoints, stages, startOk, old(IsDone(sc, x)))
    ensures r.Ok? ==> Decided(old(m.Abs()), m.endpoints, before, after, build, stages, startOk, old(IsDone(sc, x)),
                              affected, invalid, expected, candidates)
    ensures KeepsDependencies(old(m.outboundByTag), m.outboundByTag, m.endpoints)
  {
    var staged, bad := StageCandidates(m, sc, x, stages, after, affected, build, startOk, registers);
    candidates, invalid := staged, bad;
    if |after| > 0 && |AppliedOf(after, bad)| == 0 {
      RemoveOutboundsReverse(sc, x, staged);
      return Err("no usable provider outbounds"), invalid, candidates;
    }
    var swapped := Commit(m, sc, x, expected, staged, StartedIn(old(sc.scopes), x));
    if swapped.Err? {
      return Err(swapped.error), invalid, candidates;
    }
    var replaced := ReplacedOutbounds(before, swapped.value);
    DoneAfterSwap(old(m.Abs()), m.Abs(), m.defaultTag, before, after, build, affected, bad, expected, staged);
    return Ok(Applied(replaced, AppliedOf(after, bad))), invalid, candidates;
  }
}
