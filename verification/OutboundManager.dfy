/** The outbound registry: a list, a tag map and a reverse dependency index
    that change together (adapter/outbound/manager.go). */
module OutboundManager {
  import opened Common

  /** A running outbound. Distinct objects have distinct ids, so equality of
      handles is identity of objects. */
  datatype Handle = Handle(id: nat, tag: string, dependencies: seq<string>, lifecycle: bool)

  type TagMap = map<string, Handle>
  type Links = map<string, seq<string>>

  datatype Registry = Registry(outbounds: seq<Handle>, byTag: TagMap, dependBy: Links, default: Option<Handle>)

  /** The list and the tag map hold the same outbounds, once each. */
  ghost predicate ListMatches(outbounds: seq<Handle>, byTag: TagMap) {
    && (forall i, j :: 0 <= i < j < |outbounds| ==> outbounds[i].tag != outbounds[j].tag)
    && (forall i :: 0 <= i < |outbounds| ==> outbounds[i].tag in byTag && byTag[outbounds[i].tag] == outbounds[i])
    && (forall t :: t in byTag ==> byTag[t].tag == t && byTag[t] in outbounds)
  }

  predicate Linked(dependBy: Links, target: string, tag: string) {
    target in dependBy && tag in dependBy[target]
  }

  /** t is listed under d exactly when the registered t depends on d. */
  ghost predicate LinksMatch(dependBy: Links, byTag: TagMap) {
    && (forall d, t :: Linked(dependBy, d, t) <==> t in byTag && d in byTag[t].dependencies)
    && (forall d :: d in dependBy ==> dependBy[d] != [])
  }

  /** The default is nothing, a registered outbound, or an endpoint. */
  ghost predicate DefaultOk(default: Option<Handle>, byTag: TagMap, endpoints: TagMap) {
    default.Some? ==>
      || (default.value.tag in byTag && byTag[default.value.tag] == default.value)
      || (default.value.tag in endpoints && endpoints[default.value.tag] == default.value)
  }

  ghost predicate Consistent(r: Registry, endpoints: TagMap) {
    ListMatches(r.outbounds, r.byTag) && LinksMatch(r.dependBy, r.byTag) && DefaultOk(r.default, r.byTag, endpoints)
  }

  predicate Resolves(byTag: TagMap, endpoints: TagMap, tag: string) {
    tag in byTag || tag in endpoints
  }

  /** Outbounds registered before and after keep every dependency that resolved. */
  ghost predicate KeepsDependencies(before: TagMap, after: TagMap, endpoints: TagMap) {
    forall t, d {:trigger before[t], Resolves(after, endpoints, d)} ::
      (t in before && t in after && before[t] == after[t] && d in before[t].dependencies && Resolves(before, endpoints, d))
      ==> Resolves(after, endpoints, d)
  }

  /* The reverse index. */

  function Erased(tags: seq<string>, tag: string): (r: seq<string>)
    ensures forall t :: t in r <==> t in tags && t != tag
  {
    if tags == [] then []
    else
      assert tags == [tags[0]] + tags[1..];
      (if tags[0] == tag then [] else [tags[0]]) + Erased(tags[1..], tag)
  }

  function UnlinkOne(dependBy: Links, target: string, tag: string): Links {
    var rest := Erased(if target in dependBy then dependBy[target] else [], tag);
    if rest == [] then dependBy - {target} else dependBy[target := rest]
  }

  function LinkOne(dependBy: Links, target: string, tag: string): Links {
    dependBy[target := (if target in dependBy then dependBy[target] else []) + [tag]]
  }

  ghost predicate NoEmpty(dependBy: Links) {
    forall d :: d in dependBy ==> dependBy[d] != []
  }

  /** What is linked after the tag's links to some targets are taken away. */
  ghost predicate DropsLinks(before: Links, after: Links, targets: seq<string>, tag: string) {
    && NoEmpty(after)
    && forall d, t :: Linked(after, d, t) <==> Linked(before, d, t) && !(t == tag && d in targets)
  }

  ghost predicate AddsLinks(before: Links, after: Links, targets: seq<string>, tag: string) {
    && NoEmpty(after)
    && forall d, t :: Linked(after, d, t) <==> Linked(before, d, t) || (t == tag && d in targets)
  }

  method RemoveDependencies(dependBy: Links, outbound: Handle) returns (r: Links)
    requires NoEmpty(dependBy)
    ensures DropsLinks(dependBy, r, outbound.dependencies, outbound.tag)
  {
    r := dependBy;
    for i := 0 to |outbound.dependencies|
      invariant DropsLinks(dependBy, r, outbound.dependencies[..i], outbound.tag)
    {
      var target := outbound.dependencies[i];
      assert outbound.dependencies[..i + 1] == outbound.dependencies[..i] + [target];
      UnlinkStep(dependBy, r, outbound.dependencies[..i], target, outbound.tag);
      r := UnlinkOne(r, target, outbound.tag);
    }
    assert outbound.dependencies[..|outbound.dependencies|] == outbound.dependencies;
  }

  lemma UnlinkStep(before: Links, here: Links, targets: seq<string>, target: string, tag: string)
    requires DropsLinks(before, here, targets, tag)
    ensures DropsLinks(before, UnlinkOne(here, target, tag), targets + [target], tag)
  {}

  lemma LinkStep(before: Links, here: Links, targets: seq<string>, target: string, tag: string)
    requires AddsLinks(before, here, targets, tag)
    ensures AddsLinks(before, LinkOne(here, target, tag), targets + [target], tag)
  {
    var after := LinkOne(here, target, tag);
    forall d, t ensures Linked(after, d, t) <==> Linked(before, d, t) || (t == tag && d in targets + [target]) {
      assert Linked(here, d, t) <==> Linked(before, d, t) || (t == tag && d in targets);
      assert d == target ==> (Linked(after, d, t) <==> Linked(here, d, t) || t == tag);
    }
  }

  method AddDependencies(dependBy: Links, outbound: Handle) returns (r: Links)
    requires NoEmpty(dependBy)
    ensures AddsLinks(dependBy, r, outbound.dependencies, outbound.tag)
  {
    r := dependBy;
    for i := 0 to |outbound.dependencies|
      invariant AddsLinks(dependBy, r, outbound.dependencies[..i], outbound.tag)
    {
      var target := outbound.dependencies[i];
      assert outbound.dependencies[..i + 1] == outbound.dependencies[..i] + [target];
      LinkStep(dependBy, r, outbound.dependencies[..i], target, outbound.tag);
      r := LinkOne(r, target, outbound.tag);
    }
    assert outbound.dependencies[..|outbound.dependencies|] == outbound.dependencies;
  }

  lemma UnlinkedMatches(before: Links, after: Links, byTag: TagMap, outbound: Handle)
    requires LinksMatch(before, byTag) && outbound.tag in byTag && byTag[outbound.tag] == outbound
    requires DropsLinks(before, after, outbound.dependencies, outbound.tag)
    ensures LinksMatch(after, byTag - {outbound.tag})
  {}

  /* The list. */

  function Without(outbounds: seq<Handle>, outbound: Handle): (r: seq<Handle>)
    ensures forall h :: h in r <==> h in outbounds && h != outbound
  {
    if outbounds == [] then []
    else
      var last := |outbounds| - 1;
      assert outbounds == outbounds[..last] + [outbounds[last]];
      Without(outbounds[..last], outbound) + (if outbounds[last] == outbound then [] else [outbounds[last]])
  }

  ghost predicate DistinctTags(outbounds: seq<Handle>) {
    forall i, j :: 0 <= i < j < |outbounds| ==> outbounds[i].tag != outbounds[j].tag
  }

  lemma {:induction false} WithoutDistinct(outbounds: seq<Handle>, outbound: Handle)
    requires DistinctTags(outbounds)
    ensures DistinctTags(Without(outbounds, outbound))
  {
    if outbounds != [] {
      var last := |outbounds| - 1;
      WithoutDistinct(outbounds[..last], outbound);
      var rest := Without(outbounds[..last], outbound);
      forall k | 0 <= k < |rest| ensures rest[k].tag != outbounds[last].tag {
        assert rest[k] in outbounds[..last];
      }
    }
  }

  lemma WithoutMatches(outbounds: seq<Handle>, byTag: TagMap, tag: string)
    requires ListMatches(outbounds, byTag) && tag in byTag
    ensures ListMatches(Without(outbounds, byTag[tag]), byTag - {tag})
  {
    WithoutDistinct(outbounds, byTag[tag]);
    var r := Without(outbounds, byTag[tag]);
    forall i | 0 <= i < |r| ensures r[i].tag in byTag - {tag} && byTag[r[i].tag] == r[i] {
      assert r[i] in outbounds;
    }
  }

  lemma AppendMatches(outbounds: seq<Handle>, byTag: TagMap, outbound: Handle)
    requires ListMatches(outbounds, byTag) && outbound.tag !in byTag
    ensures ListMatches(outbounds + [outbound], byTag[outbound.tag := outbound])
  {
    var longer, map' := outbounds + [outbound], byTag[outbound.tag := outbound];
    forall t | t in map' ensures map'[t] in longer {
      if t == outbound.tag {
        assert longer[|outbounds|] == outbound;
      }
    }
  }

  /* What each operation does to the registry. */

  /** Remove succeeded: the outbound is gone, and a default that was it falls
      back to the first of the rest. */
  ghost predicate Removed(before: Registry, tag: string, after: Registry) {
    && tag in before.byTag
    && after.byTag == before.byTag - {tag}
    && after.outbounds == Without(before.outbounds, before.byTag[tag])
    && after.default == (if before.default == Some(before.byTag[tag]) then First(after.outbounds) else before.default)
    && DropsLinks(before.dependBy, after.dependBy, before.byTag[tag].dependencies, tag)
  }

  function First(outbounds: seq<Handle>): Option<Handle> {
    if |outbounds| > 0 then Some(outbounds[0]) else None
  }

  /** Nothing registered depends on the tag. */
  ghost predicate Removable(r: Registry, tag: string) {
    tag in r.byTag && forall t :: t in r.byTag ==> tag !in r.byTag[t].dependencies
  }

  /** The links of the replaced outbound are gone and those of the new one are there. */
  ghost predicate ReplacesLinks(before: Links, after: Links, replaced: Option<Handle>, outbound: Handle) {
    && NoEmpty(after)
    && forall d, t :: Linked(after, d, t) <==>
         || (Linked(before, d, t) && !(replaced.Some? && t == outbound.tag && d in replaced.value.dependencies))
         || (t == outbound.tag && d in outbound.dependencies)
  }

  lemma ReplacedMatches(before: Links, after: Links, byTag: TagMap, outbound: Handle)
    requires LinksMatch(before, byTag)
    requires ReplacesLinks(before, after, if outbound.tag in byTag then Some(byTag[outbound.tag]) else None, outbound)
    ensures LinksMatch(after, byTag[outbound.tag := outbound])
  {
    var now := byTag[outbound.tag := outbound];
    forall d, t ensures Linked(after, d, t) <==> t in now && d in now[t].dependencies {
      assert Linked(before, d, t) <==> t in byTag && d in byTag[t].dependencies;
    }
  }

  /** Create succeeded: the outbound is last, in place of one with its tag. */
  ghost predicate Created(before: Registry, outbound: Handle, defaultTag: string, after: Registry) {
    var tag := outbound.tag;
    var replaced := if tag in before.byTag then Some(before.byTag[tag]) else None;
    && tag != ""
    && after.byTag == before.byTag[tag := outbound]
    && after.outbounds == (if replaced.Some? then Without(before.outbounds, replaced.value) else before.outbounds) + [outbound]
    && after.default == (if tag == defaultTag || (defaultTag == "" && before.default.None?)
                            || (replaced.Some? && before.default == replaced)
                         then Some(outbound) else before.default)
    && ReplacesLinks(before.dependBy, after.dependBy, replaced, outbound)
  }

  lemma RemovedKeeps(before: Registry, tag: string, after: Registry, endpoints: TagMap)
    requires Consistent(before, endpoints) && Removable(before, tag) && Removed(before, tag, after)
    ensures Consistent(after, endpoints) && KeepsDependencies(before.byTag, after.byTag, endpoints)
  {
    WithoutMatches(before.outbounds, before.byTag, tag);
    UnlinkedMatches(before.dependBy, after.dependBy, before.byTag, before.byTag[tag]);
  }

  lemma CreatedKeeps(before: Registry, outbound: Handle, defaultTag: string, after: Registry, endpoints: TagMap)
    requires Consistent(before, endpoints) && Created(before, outbound, defaultTag, after)
    ensures Consistent(after, endpoints) && KeepsDependencies(before.byTag, after.byTag, endpoints)
  {
    ReplacedMatches(before.dependBy, after.dependBy, before.byTag, outbound);
    CreatedMatches(before.outbounds, before.byTag, outbound);
  }

  lemma CreatedMatches(outbounds: seq<Handle>, byTag: TagMap, outbound: Handle)
    requires ListMatches(outbounds, byTag)
    ensures var kept := if outbound.tag in byTag then Without(outbounds, byTag[outbound.tag]) else outbounds;
            ListMatches(kept + [outbound], byTag[outbound.tag := outbound])
  {
    var tag := outbound.tag;
    if tag in byTag {
      WithoutMatches(outbounds, byTag, tag);
      var rest := byTag - {tag};
      AppendMatches(Without(outbounds, byTag[tag]), rest, outbound);
      assert rest[tag := outbound] == byTag[tag := outbound];
    } else {
      AppendMatches(outbounds, byTag, outbound);
    }
  }
}
