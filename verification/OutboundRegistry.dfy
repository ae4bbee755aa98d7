/** The outbound manager as an object (adapter/outbound/manager.go): Create,
    Remove and SwapBatch on the live registry, and every sequence of them. */
module OutboundRegistry {
  import opened Common
  import opened OutboundManager
  import opened OutboundSwap

  predicate WellNamed(c: Handle, byTag: TagMap, removed: set<string>) {
    c.tag != "" && (c.tag in byTag ==> c.tag in removed)
  }

  lemma CandidateSeen(candidates: seq<Handle>, i: nat, tag: string)
    requires i <= |candidates|
    ensures tag in CandidateMap(candidates[..i]) <==> exists k :: 0 <= k < i && candidates[k].tag == tag
  {
    var front := candidates[..i];
    CandidateMapIs(front);
    if tag in CandidateMap(front) {
      var k :| 0 <= k < i && front[k] == CandidateMap(front)[tag];
      assert candidates[k].tag == tag;
    }
    if k :| 0 <= k < i && candidates[k].tag == tag {
      assert front[k].tag == tag;
    }
  }

  lemma CandidateMapStep(candidates: seq<Handle>, i: nat)
    requires i < |candidates|
    ensures CandidateMap(candidates[..i + 1]) == CandidateMap(candidates[..i])[candidates[i].tag := candidates[i]]
  {
    assert candidates[..i + 1][..i] == candidates[..i];
  }

  lemma MapMore(byTag: TagMap, candidates: seq<Handle>, i: nat)
    requires i < |candidates|
    ensures byTag + CandidateMap(candidates[..i + 1])
         == (byTag + CandidateMap(candidates[..i]))[candidates[i].tag := candidates[i]]
  {
    CandidateMapStep(candidates, i);
  }

  lemma AddedMore(start: seq<Handle>, candidates: seq<Handle>, removed: set<string>, i: nat)
    requires i < |candidates|
    ensures start + Added(candidates[..i + 1], removed)
         == start + Added(candidates[..i], removed) + (if candidates[i].tag in removed then [] else [candidates[i]])
  {
    AddedStep(candidates, removed, i);
  }

  class Manager {
    const defaultTag: string
    const endpoints: TagMap
    var outbounds: seq<Handle>
    var outboundByTag: TagMap
    var dependByTag: Links
    var defaultOutbound: Option<Handle>

    ghost function Abs(): Registry
      reads this
    {
      Registry(outbounds, outboundByTag, dependByTag, defaultOutbound)
    }

    ghost predicate Valid()
      reads this
    {
      Consistent(Abs(), endpoints)
    }

    constructor (defaultTag: string, endpoints: TagMap)
      ensures Valid() && outbounds == [] && defaultOutbound == None
      ensures this.defaultTag == defaultTag && this.endpoints == endpoints
    {
      this.defaultTag, this.endpoints := defaultTag, endpoints;
      outbounds, outboundByTag, dependByTag, defaultOutbound := [], map[], map[], None;
    }

    method Outbound(tag: string) returns (r: Option<Handle>)
      requires Valid()
      ensures r.Some? <==> Resolves(outboundByTag, endpoints, tag)
      ensures tag in outboundByTag ==> r == Some(outboundByTag[tag]) && r.value in outbounds && r.value.tag == tag
      ensures tag !in outboundByTag && tag in endpoints ==> r == Some(endpoints[tag])
    {
      if tag in outboundByTag {
        return Some(outboundByTag[tag]);
      }
      if tag in endpoints {
        return Some(endpoints[tag]);
      }
      return None;
    }

    /** Refused, leaving everything as it was, exactly when the tag is unknown
        or a registered outbound depends on it. */
    method Remove(tag: string) returns (r: Result<Handle, string>)
      requires Valid()
      modifies this
      ensures Valid()
      ensures r.Ok? <==> Removable(old(Abs()), tag)
      ensures r.Err? ==> Abs() == old(Abs())
      ensures r.Ok? ==> r.value == old(outboundByTag[tag]) && Removed(old(Abs()), tag, Abs())
      ensures KeepsDependencies(old(outboundByTag), outboundByTag, endpoints)
    {
      ghost var before := Abs();
      if tag !in outboundByTag {
        return Err("invalid argument");
      }
      var outbound := outboundByTag[tag];
      if tag in dependByTag && |dependByTag[tag]| > 0 {
        assert Linked(dependByTag, tag, dependByTag[tag][0]);
        return Err("outbound is depended by others");
      }
      outboundByTag := outboundByTag - {tag};
      outbounds := Without(outbounds, outbound);
      dependByTag := RemoveDependencies(dependByTag, outbound);
      if defaultOutbound == Some(outbound) {
        if |outbounds| > 0 {
          defaultOutbound := Some(outbounds[0]);
        } else {
          defaultOutbound := None;
        }
      }
      assert Removable(before, tag) by {
        forall t | t in before.byTag ensures tag !in before.byTag[t].dependencies {
          assert !Linked(before.dependBy, tag, t);
        }
      }
      RemovedKeeps(before, tag, Abs(), endpoints);
      return Ok(outbound);
    }

    /** Registers what was built and started, in place of an outbound of the
        same tag; a failed build, or an empty tag, changes nothing. */
    method Create(tag: string, built: Result<Handle, string>) returns (r: Result<Option<Handle>, string>)
      requires Valid()
      requires built.Ok? ==> built.value.tag == tag
      modifies this
      ensures Valid()
      ensures r.Ok? <==> tag != "" && built.Ok?
      ensures r.Err? ==> Abs() == old(Abs())
      ensures r.Ok? ==> Created(old(Abs()), built.value, defaultTag, Abs())
      ensures r.Ok? ==> r.value == if tag in old(outboundByTag) then Some(old(outboundByTag)[tag]) else None
      ensures KeepsDependencies(old(outboundByTag), outboundByTag, endpoints)
    {
      if tag == "" {
        return Err("invalid argument");
      }
      if built.Err? {
        return Err(built.error);
      }
      ghost var before := Abs();
      var outbound := built.value;
      var exists' := if tag in outboundByTag then Some(outboundByTag[tag]) else None;
      if exists'.Some? {
        outbounds := Without(outbounds, exists'.value);
        dependByTag := RemoveDependencies(dependByTag, exists'.value);
      }
      outbounds := outbounds + [outbound];
      outboundByTag := outboundByTag[tag := outbound];
      dependByTag := AddDependencies(dependByTag, outbound);
      if tag == defaultTag || (defaultTag == "" && defaultOutbound.None?)
         || (exists'.Some? && defaultOutbound == exists')
      {
        defaultOutbound := Some(outbound);
      }
      CreatedKeeps(before, outbound, defaultTag, Abs(), endpoints);
      return Ok(exists');
    }

    /* The four checks of SwapBatch, all made before anything changes. */

    method ExpectedIsCurrent(expected: TagMap) returns (ok: bool)
      ensures ok <==> forall t :: t in expected ==> t in outboundByTag && outboundByTag[t] == expected[t]
    {
      var rest := expected.Keys;
      while rest != {}
        invariant rest <= expected.Keys
        invariant forall t :: t in expected && t !in rest ==> t in outboundByTag && outboundByTag[t] == expected[t]
        decreases |rest|
      {
        var tag :| tag in rest;
        if tag !in outboundByTag || outboundByTag[tag] != expected[tag] {
          return false;
        }
        rest := rest - {tag};
      }
      return true;
    }

    method IndexCandidates(removed: set<string>, candidates: seq<Handle>) returns (ok: bool, byTag: TagMap)
      ensures ok <==> DistinctTags(candidates) && forall c :: c in candidates ==> WellNamed(c, outboundByTag, removed)
      ensures ok ==> byTag == CandidateMap(candidates)
    {
      byTag := map[];
      for i := 0 to |candidates|
        invariant forall k, m :: 0 <= k < m < i ==> candidates[k].tag != candidates[m].tag
        invariant forall k :: 0 <= k < i ==> WellNamed(candidates[k], outboundByTag, removed)
        invariant byTag == CandidateMap(candidates[..i])
      {
        var tag := candidates[i].tag;
        CandidateSeen(candidates, i, tag);
        assert candidates[i] in candidates;
        if tag == "" || tag in byTag {
          return false, byTag;
        }
        if tag in outboundByTag && tag !in removed {
          return false, byTag;
        }
        CandidateMapStep(candidates, i);
        byTag := byTag[tag := candidates[i]];
      }
      assert candidates[..|candidates|] == candidates;
      return true, byTag;
    }

    method NobodyLeftDepends(removed: set<string>) returns (ok: bool)
      requires Valid()
      ensures ok <==> forall t, u :: t in removed && u in outboundByTag && t in outboundByTag[u].dependencies ==> u in removed
    {
      var rest := removed;
      while rest != {}
        invariant rest <= removed
        invariant forall t, u :: t in removed && t !in rest && Linked(dependByTag, t, u) ==> u in removed
        decreases |rest|
      {
        var tag :| tag in rest;
        if tag in dependByTag {
          var dependents := dependByTag[tag];
          for i := 0 to |dependents|
            invariant forall k :: 0 <= k < i ==> dependents[k] in removed
          {
            if dependents[i] !in removed {
              assert Linked(dependByTag, tag, dependents[i]);
              return false;
            }
          }
        }
        rest := rest - {tag};
      }
      forall t, u | t in removed && u in outboundByTag && t in outboundByTag[u].dependencies ensures u in removed {
        assert Linked(dependByTag, t, u);
      }
      return true;
    }

    method DependenciesResolve(removed: set<string>, byTag: TagMap, candidates: seq<Handle>) returns (ok: bool)
      requires byTag == CandidateMap(candidates)
      ensures ok <==> forall c, d :: c in candidates && d in c.dependencies ==>
                        Resolves(SwappedMap(outboundByTag, removed, candidates), endpoints, d)
    {
      for i := 0 to |candidates|
        invariant forall k, d :: 0 <= k < i && d in candidates[k].dependencies ==>
          Resolves(SwappedMap(outboundByTag, removed, candidates), endpoints, d)
      {
        var dependencies := candidates[i].dependencies;
        for j := 0 to |dependencies|
          invariant forall k :: 0 <= k < j ==> Resolves(SwappedMap(outboundByTag, removed, candidates), endpoints, dependencies[k])
        {
          var dependency := dependencies[j];
          if dependency !in byTag && (dependency !in outboundByTag || dependency in removed) && dependency !in endpoints {
            assert candidates[i] in candidates && dependency in candidates[i].dependencies;
            assert !Resolves(SwappedMap(outboundByTag, removed, candidates), endpoints, dependency);
            return false;
          }
        }
      }
      return true;
    }
  
    /* The changes of SwapBatch. */

    method DropOld(removed: set<string>)
      requires removed <= outboundByTag.Keys && NoEmpty(dependByTag)
      requires forall t :: t in outboundByTag ==> outboundByTag[t].tag == t
      modifies `outboundByTag, `dependByTag
      ensures outboundByTag == old(outboundByTag) - removed
      ensures DropsAll(old(dependByTag), dependByTag, old(outboundByTag), removed)
    {
      var rest := removed;
      while rest != {}
        invariant rest <= removed
        invariant outboundByTag == old(outboundByTag) - (removed - rest)
        invariant DropsAll(old(dependByTag), dependByTag, old(outboundByTag), removed - rest)
        decreases |rest|
      {
        var tag :| tag in rest;
        var outbound := outboundByTag[tag];
        ghost var links, done := dependByTag, removed - rest;
        dependByTag := RemoveDependencies(dependByTag, outbound);
        DropsMore(old(dependByTag), links, dependByTag, old(outboundByTag), done, tag);
        outboundByTag := outboundByTag - {tag};
        rest := rest - {tag};
        assert removed - rest == done + {tag};
      }
    }

    method ReplaceInPlace(removed: set<string>, candidates: TagMap) returns (updated: seq<Handle>, remaining: TagMap)
      requires DistinctTags(outbounds)
      ensures updated == InPlace(outbounds, removed, candidates)
      ensures remaining == candidates - (removed * TagsIn(outbounds))
    {
      updated, remaining := [], candidates;
      for i := 0 to |outbounds|
        invariant updated == InPlace(outbounds[..i], removed, candidates)
        invariant remaining == candidates - (removed * TagsIn(outbounds[..i]))
      {
        var current := outbounds[i];
        assert outbounds[..i + 1][..i] == outbounds[..i];
        TagsInStep(outbounds, i);
        if current.tag !in removed {
          updated := updated + [current];
        } else if current.tag in remaining {
          updated := updated + [remaining[current.tag]];
          remaining := remaining - {current.tag};
        }
      }
      assert outbounds[..|outbounds|] == outbounds;
    }

    method AddCandidates(removed: set<string>, candidates: seq<Handle>, remaining: TagMap, start: seq<Handle>)
      returns (updated: seq<Handle>)
      requires DistinctTags(candidates) && NoEmpty(dependByTag)
      requires forall k :: 0 <= k < |candidates| ==>
        candidates[k].tag !in outboundByTag && (candidates[k].tag in remaining <==> candidates[k].tag !in removed)
      modifies `outboundByTag, `dependByTag
      ensures updated == start + Added(candidates, removed)
      ensures outboundByTag == old(outboundByTag) + CandidateMap(candidates)
      ensures AddsAll(old(dependByTag), dependByTag, candidates)
    {
      updated := start;
      for i := 0 to |candidates|
        invariant updated == start + Added(candidates[..i], removed)
        invariant outboundByTag == old(outboundByTag) + CandidateMap(candidates[..i])
        invariant AddsAll(old(dependByTag), dependByTag, candidates[..i])
      {
        ghost var links := dependByTag;
        MapMore(old(outboundByTag), candidates, i);
        AddedMore(start, candidates, removed, i);
        if candidates[i].tag in remaining {
          updated := updated + [candidates[i]];
        }
        outboundByTag := outboundByTag[candidates[i].tag := candidates[i]];
        dependByTag := AddDependencies(dependByTag, candidates[i]);
        AddsMore(old(dependByTag), links, dependByTag, candidates, i);
      }
      assert candidates[..|candidates|] == candidates;
    }

    method ChooseDefault(removed: set<string>, candidates: TagMap)
      modifies `defaultOutbound
      ensures defaultOutbound == SwappedDefault(old(defaultOutbound), defaultTag, removed, candidates, outbounds)
    {
      if defaultOutbound.Some? && defaultOutbound.value.tag in removed {
        var tag := defaultOutbound.value.tag;
        defaultOutbound := if tag in candidates then Some(candidates[tag]) else None;
      }
      if defaultTag in candidates {
        defaultOutbound := Some(candidates[defaultTag]);
      }
      if defaultOutbound.None? && |outbounds| > 0 {
        defaultOutbound := Some(outbounds[0]);
      }
    }

    /** All or nothing: accepted exactly when every check passes, and then the
        old outbounds are out, the candidates are in, and the registry is
        consistent; otherwise nothing has changed. */
    method SwapBatch(expected: TagMap, candidates: seq<Handle>) returns (r: Result<TagMap, string>)
      requires Valid()
      modifies this
      ensures Valid()
      ensures r.Ok? <==> SwapAllowed(old(Abs()), endpoints, expected, candidates)
      ensures r.Err? ==> Abs() == old(Abs())
      ensures r.Ok? ==> r.value == expected && Swapped(old(Abs()), defaultTag, expected, candidates, Abs())
      ensures KeepsDependencies(old(outboundByTag), outboundByTag, endpoints)
    {
      var refused, byTag := SwapError(expected, candidates);
      if refused.Some? {
        return Err(refused.value);
      }
      ApplySwap(expected, candidates, byTag);
      return Ok(expected);
    }

    method SwapError(expected: TagMap, candidates: seq<Handle>) returns (err: Option<string>, byTag: TagMap)
      requires Valid()
      ensures err.None? <==> SwapAllowed(Abs(), endpoints, expected, candidates)
      ensures err.None? ==> byTag == CandidateMap(candidates)
    {
      var current := ExpectedIsCurrent(expected);
      if !current {
        return Some("outbound changed before batch swap"), map[];
      }
      var named;
      named, byTag := IndexCandidates(expected.Keys, candidates);
      if !named {
        return Some("invalid duplicate outbound candidate or outbound already exists"), byTag;
      }
      var independent := NobodyLeftDepends(expected.Keys);
      if !independent {
        return Some("outbound is depended by others"), byTag;
      }
      var resolved := DependenciesResolve(expected.Keys, byTag, candidates);
      if !resolved {
        return Some("outbound dependency not found"), byTag;
      }
      return None, byTag;
    }

    method ApplySwap(expected: TagMap, candidates: seq<Handle>, byTag: TagMap)
      requires Valid() && SwapAllowed(Abs(), endpoints, expected, candidates) && byTag == CandidateMap(candidates)
      modifies this
      ensures Valid() && Swapped(old(Abs()), defaultTag, expected, candidates, Abs())
      ensures KeepsDependencies(old(outboundByTag), outboundByTag, endpoints)
    {
      ghost var before := Abs();
      var removed := expected.Keys;
      DropOld(removed);
      ghost var dropped := dependByTag;
      var updated, remaining := ReplaceInPlace(removed, byTag);
      RemainingAre(before.outbounds, before.byTag, removed, candidates);
      updated := AddCandidates(removed, candidates, remaining, updated);
      outbounds := updated;
      ChooseDefault(removed, byTag);
      DropsThenAdds(before.dependBy, dropped, dependByTag, before.byTag, expected, candidates);
      SwappedKeeps(before, endpoints, defaultTag, expected, candidates, Abs());
    }
  }

  /** All links of the removed outbounds are gone, and no others. */
  ghost predicate DropsAll(before: Links, after: Links, byTag: TagMap, removed: set<string>) {
    && NoEmpty(after)
    && forall d, t :: Linked(after, d, t) <==> Linked(before, d, t) && !(t in removed && t in byTag && d in byTag[t].dependencies)
  }

  lemma DropsMore(before: Links, here: Links, after: Links, byTag: TagMap, done: set<string>, tag: string)
    requires DropsAll(before, here, byTag, done) && tag in byTag && DropsLinks(here, after, byTag[tag].dependencies, tag)
    ensures DropsAll(before, after, byTag, done + {tag})
  {}

  /** All links of the candidates are there, and the ones that were. */
  ghost predicate AddsAll(before: Links, after: Links, candidates: seq<Handle>) {
    && NoEmpty(after)
    && forall d, t :: Linked(after, d, t) <==> Linked(before, d, t) || Lists(candidates, d, t)
  }

  lemma ListsMore(candidates: seq<Handle>, i: nat, d: string, t: string)
    requires i < |candidates|
    ensures Lists(candidates[..i + 1], d, t)
       <==> Lists(candidates[..i], d, t) || (candidates[i].tag == t && d in candidates[i].dependencies)
  {
    var here, next := candidates[..i], candidates[..i + 1];
    assert next == here + [candidates[i]];
    if Lists(here, d, t) {
      var k :| 0 <= k < |here| && here[k].tag == t && d in here[k].dependencies;
      assert next[k] == here[k];
    }
    if Lists(next, d, t) {
      var k :| 0 <= k < |next| && next[k].tag == t && d in next[k].dependencies;
      if k < i {
        assert here[k] == next[k];
      }
    }
    if candidates[i].tag == t && d in candidates[i].dependencies {
      assert next[i] == candidates[i];
    }
  }

  lemma AddsMore(before: Links, here: Links, after: Links, candidates: seq<Handle>, i: nat)
    requires i < |candidates| && AddsAll(before, here, candidates[..i])
    requires AddsLinks(here, after, candidates[i].dependencies, candidates[i].tag)
    ensures AddsAll(before, after, candidates[..i + 1])
  {
    forall d, t ensures Linked(after, d, t) <==> Linked(before, d, t) || Lists(candidates[..i + 1], d, t) {
      ListsMore(candidates, i, d, t);
      assert Linked(after, d, t) <==> Linked(here, d, t) || (t == candidates[i].tag && d in candidates[i].dependencies);
    }
  }

  lemma DropsThenAdds(before: Links, dropped: Links, after: Links, byTag: TagMap, expected: TagMap, candidates: seq<Handle>)
    requires DropsAll(before, dropped, byTag, expected.Keys) && AddsAll(dropped, after, candidates)
    requires forall t :: t in expected ==> t in byTag && byTag[t] == expected[t]
    ensures SwapsLinks(before, after, expected, candidates)
  {
    forall d, t ensures Linked(after, d, t) <==>
                        (Linked(before, d, t) && !(t in expected && d in expected[t].dependencies)) || Lists(candidates, d, t)
    {
      assert Linked(dropped, d, t) <==> Linked(before, d, t) && !(t in expected.Keys && t in byTag && d in byTag[t].dependencies);
    }
  }

  lemma AddedStep(candidates: seq<Handle>, removed: set<string>, i: nat)
    requires i < |candidates|
    ensures Added(candidates[..i + 1], removed)
         == Added(candidates[..i], removed) + (if candidates[i].tag in removed then [] else [candidates[i]])
  {
    assert candidates[..i + 1][..i] == candidates[..i];
  }

  function TagsIn(list: seq<Handle>): set<string> {
    set k | 0 <= k < |list| :: list[k].tag
  }

  lemma TagsInStep(list: seq<Handle>, i: nat)
    requires i < |list|
    ensures TagsIn(list[..i + 1]) == TagsIn(list[..i]) + {list[i].tag}
    ensures DistinctTags(list) ==> list[i].tag !in TagsIn(list[..i])
  {
    assert list[..i + 1][i] == list[i];
    forall t | t in TagsIn(list[..i]) ensures t in TagsIn(list[..i + 1]) {
      var k :| 0 <= k < i && list[..i][k].tag == t;
      assert list[..i + 1][k].tag == t;
    }
    forall t | t in TagsIn(list[..i + 1]) ensures t in TagsIn(list[..i]) || t == list[i].tag {
      var k :| 0 <= k < i + 1 && list[..i + 1][k].tag == t;
      if k < i {
        assert list[..i][k].tag == t;
      }
    }
  }

  /** Every removed tag stood in the list, so the candidates left over after the
      replacement in place are those that replace nothing. */
  lemma RemainingAre(list: seq<Handle>, byTag: TagMap, removed: set<string>, candidates: seq<Handle>)
    requires ListMatches(list, byTag) && removed <= byTag.Keys
    ensures removed * TagsIn(list) == removed
    ensures forall k :: 0 <= k < |candidates| ==>
              (candidates[k].tag in CandidateMap(candidates) - removed <==> candidates[k].tag !in removed)
  {
    CandidateMapIs(candidates);
    forall t | t in removed ensures t in TagsIn(list) {
      var k :| 0 <= k < |list| && list[k] == byTag[t];
      assert list[k].tag == t;
    }
  }

  /* Every sequence of operations. */

  datatype Op = CreateOp(outbound: Handle) | RemoveOp(tag: string) | SwapOp(expected: TagMap, candidates: seq<Handle>) | RefusedOp

  ghost predicate Step(before: Registry, endpoints: TagMap, defaultTag: string, op: Op, after: Registry) {
    match op
    case CreateOp(outbound) => Created(before, outbound, defaultTag, after)
    case RemoveOp(tag) => Removable(before, tag) && Removed(before, tag, after)
    case SwapOp(expected, candidates) =>
      SwapAllowed(before, endpoints, expected, candidates) && Swapped(before, defaultTag, expected, candidates, after)
    case RefusedOp => after == before
  }

  ghost predicate Run(states: seq<Registry>, ops: seq<Op>, endpoints: TagMap, defaultTag: string) {
    && |states| == |ops| + 1
    && states[0] == Registry([], map[], map[], None)
    && forall i :: 0 <= i < |ops| ==> Step(states[i], endpoints, defaultTag, ops[i], states[i + 1])
  }

  lemma StepKeeps(before: Registry, endpoints: TagMap, defaultTag: string, op: Op, after: Registry)
    requires Consistent(before, endpoints) && Step(before, endpoints, defaultTag, op, after)
    ensures Consistent(after, endpoints) && KeepsDependencies(before.byTag, after.byTag, endpoints)
  {
    match op
    case CreateOp(outbound) => CreatedKeeps(before, outbound, defaultTag, after, endpoints);
    case RemoveOp(tag) => RemovedKeeps(before, tag, after, endpoints);
    case SwapOp(expected, candidates) => SwappedKeeps(before, endpoints, defaultTag, expected, candidates, after);
    case RefusedOp =>
  }

  /** In every state of every sequence the list, the tag map, the reverse index
      and the default agree. */
  lemma {:induction false} RunConsistent(states: seq<Registry>, ops: seq<Op>, endpoints: TagMap, defaultTag: string, i: nat)
    requires Run(states, ops, endpoints, defaultTag) && i < |states|
    ensures Consistent(states[i], endpoints)
    decreases i
  {
    if i > 0 {
      RunConsistent(states, ops, endpoints, defaultTag, i - 1);
      StepKeeps(states[i - 1], endpoints, defaultTag, ops[i - 1], states[i]);
    }
  }

  lemma KeepsOne(before: TagMap, after: TagMap, endpoints: TagMap, outbound: Handle, dependency: string)
    requires KeepsDependencies(before, after, endpoints) && dependency in outbound.dependencies
    requires outbound.tag in before && before[outbound.tag] == outbound
    requires outbound.tag in after && after[outbound.tag] == outbound
    requires Resolves(before, endpoints, dependency)
    ensures Resolves(after, endpoints, dependency)
  {
    assert before[outbound.tag] == outbound;
  }

  ghost predicate Stays(states: seq<Registry>, outbound: Handle, i: nat, j: nat)
    requires i <= j < |states|
  {
    forall k :: i <= k <= j ==> outbound.tag in states[k].byTag && states[k].byTag[outbound.tag] == outbound
  }

  /** Every step keeps the dependencies. */
  ghost predicate AllKeep(states: seq<Registry>, endpoints: TagMap) {
    forall k: nat :: k + 1 < |states| ==> KeepsDependencies(states[k].byTag, states[k + 1].byTag, endpoints)
  }

  lemma {:induction false} KeptThrough(states: seq<Registry>, endpoints: TagMap, outbound: Handle, dependency: string, i: nat, j: nat)
    requires AllKeep(states, endpoints) && i <= j < |states| && Stays(states, outbound, i, j)
    requires dependency in outbound.dependencies && Resolves(states[i].byTag, endpoints, dependency)
    ensures Resolves(states[j].byTag, endpoints, dependency)
    decreases j
  {
    if i < j {
      KeptThrough(states, endpoints, outbound, dependency, i, j - 1);
      assert KeepsDependencies(states[j - 1].byTag, states[j - 1 + 1].byTag, endpoints);
      KeepsOne(states[j - 1].byTag, states[j].byTag, endpoints, outbound, dependency);
    }
  }

  lemma RunStepKeeps(states: seq<Registry>, ops: seq<Op>, endpoints: TagMap, defaultTag: string, k: nat)
    requires Run(states, ops, endpoints, defaultTag) && k + 1 < |states|
    ensures KeepsDependencies(states[k].byTag, states[k + 1].byTag, endpoints)
  {
    RunConsistent(states, ops, endpoints, defaultTag, k);
    StepKeeps(states[k], endpoints, defaultTag, ops[k], states[k + 1]);
  }

  /** As long as an outbound stays registered, no operation takes away a
      dependency it once resolved. */
  lemma RunKeepsDependencies(states: seq<Registry>, ops: seq<Op>, endpoints: TagMap, defaultTag: string,
                             outbound: Handle, dependency: string, i: nat, j: nat)
    requires Run(states, ops, endpoints, defaultTag) && i <= j < |states| && Stays(states, outbound, i, j)
    requires dependency in outbound.dependencies && Resolves(states[i].byTag, endpoints, dependency)
    ensures Resolves(states[j].byTag, endpoints, dependency)
  {
    forall k: nat | k + 1 < |states| ensures KeepsDependencies(states[k].byTag, states[k + 1].byTag, endpoints) {
      RunStepKeeps(states, ops, endpoints, defaultTag, k);
    }
    KeptThrough(states, endpoints, outbound, dependency, i, j);
  }
}
