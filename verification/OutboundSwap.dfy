/** What a batch swap does to the outbound registry (adapter/outbound/manager.go,
    SwapBatch), as a relation between the registry before and after. */
module OutboundSwap {
  import opened Common
  import opened OutboundManager

  /** The candidate of each tag. */
  function CandidateMap(candidates: seq<Handle>): TagMap {
    if candidates == [] then map[]
    else
      var last := |candidates| - 1;
      CandidateMap(candidates[..last])[candidates[last].tag := candidates[last]]
  }

  lemma {:induction false} CandidateMapIs(candidates: seq<Handle>)
    ensures forall t :: t in CandidateMap(candidates) ==> CandidateMap(candidates)[t].tag == t && CandidateMap(candidates)[t] in candidates
    ensures forall k :: 0 <= k < |candidates| ==> candidates[k].tag in CandidateMap(candidates)
  {
    if candidates != [] {
      var last := |candidates| - 1;
      CandidateMapIs(candidates[..last]);
      assert candidates == candidates[..last] + [candidates[last]];
    }
  }

  lemma CandidateAt(candidates: seq<Handle>, k: nat)
    requires DistinctTags(candidates) && k < |candidates|
    ensures candidates[k].tag in CandidateMap(candidates) && CandidateMap(candidates)[candidates[k].tag] == candidates[k]
  {
    CandidateMapIs(candidates);
    var other := CandidateMap(candidates)[candidates[k].tag];
    var m :| 0 <= m < |candidates| && candidates[m] == other;
  }

  /** The old list, each removed outbound replaced where it stood by the
      candidate of its tag, or dropped when there is none. */
  function InPlace(list: seq<Handle>, removed: set<string>, candidates: TagMap): seq<Handle> {
    if list == [] then []
    else
      var last := list[|list| - 1];
      InPlace(list[..|list| - 1], removed, candidates)
      + (if last.tag !in removed then [last] else if last.tag in candidates then [candidates[last.tag]] else [])
  }

  /** The candidates that replace nothing. */
  function Added(candidates: seq<Handle>, removed: set<string>): seq<Handle> {
    if candidates == [] then []
    else
      var last := candidates[|candidates| - 1];
      Added(candidates[..|candidates| - 1], removed) + (if last.tag in removed then [] else [last])
  }

  lemma {:induction false} AddedMembers(candidates: seq<Handle>, removed: set<string>)
    ensures forall c :: c in Added(candidates, removed) <==> c in candidates && c.tag !in removed
  {
    if candidates != [] {
      var last := |candidates| - 1;
      AddedMembers(candidates[..last], removed);
      assert candidates == candidates[..last] + [candidates[last]];
    }
  }

  function SwappedList(list: seq<Handle>, removed: set<string>, candidates: seq<Handle>): seq<Handle> {
    InPlace(list, removed, CandidateMap(candidates)) + Added(candidates, removed)
  }

  function SwappedMap(byTag: TagMap, removed: set<string>, candidates: seq<Handle>): TagMap {
    (byTag - removed) + CandidateMap(candidates)
  }

  function SwappedDefault(default: Option<Handle>, defaultTag: string, removed: set<string>, candidates: TagMap,
                          list: seq<Handle>): Option<Handle>
  {
    var kept :=
      if default.Some? && default.value.tag in removed
      then if default.value.tag in candidates then Some(candidates[default.value.tag]) else None
      else default;
    var chosen := if defaultTag in candidates then Some(candidates[defaultTag]) else kept;
    if chosen.None? then First(list) else chosen
  }

  /** Exactly when the swap is accepted: the caller's picture of the old
      outbounds is current, the candidates are well named and clash with nothing
      that stays, nothing that stays depends on what goes, and every dependency
      of a candidate resolves afterwards. */
  ghost predicate SwapAllowed(r: Registry, endpoints: TagMap, expected: TagMap, candidates: seq<Handle>) {
    && (forall t :: t in expected ==> t in r.byTag && r.byTag[t] == expected[t])
    && DistinctTags(candidates)
    && (forall c :: c in candidates ==> c.tag != "" && (c.tag in r.byTag ==> c.tag in expected))
    && (forall t, u :: t in expected && u in r.byTag && t in r.byTag[u].dependencies ==> u in expected)
    && (forall c, d :: c in candidates && d in c.dependencies ==>
          Resolves(SwappedMap(r.byTag, expected.Keys, candidates), endpoints, d))
  }

  ghost predicate Swapped(before: Registry, defaultTag: string, expected: TagMap, candidates: seq<Handle>, after: Registry) {
    var removed := expected.Keys;
    && after.byTag == SwappedMap(before.byTag, removed, candidates)
    && after.outbounds == SwappedList(before.outbounds, removed, candidates)
    && after.default == SwappedDefault(before.default, defaultTag, removed, CandidateMap(candidates), after.outbounds)
    && SwapsLinks(before.dependBy, after.dependBy, expected, candidates)
  }

  /** Some candidate of that tag depends on the target. */
  ghost predicate Lists(candidates: seq<Handle>, target: string, tag: string) {
    exists k :: 0 <= k < |candidates| && candidates[k].tag == tag && target in candidates[k].dependencies
  }

  /** The links of the removed outbounds are gone and those of the candidates are there. */
  ghost predicate SwapsLinks(before: Links, after: Links, expected: TagMap, candidates: seq<Handle>) {
    && NoEmpty(after)
    && forall d, t :: Linked(after, d, t) <==>
         (Linked(before, d, t) && !(t in expected && d in expected[t].dependencies)) || Lists(candidates, d, t)
  }

  lemma SwappedLinksMatch(before: Links, after: Links, byTag: TagMap, expected: TagMap, candidates: seq<Handle>)
    requires LinksMatch(before, byTag) && SwapsLinks(before, after, expected, candidates)
    requires forall t :: t in expected ==> t in byTag && byTag[t] == expected[t]
    requires Fits(byTag, expected.Keys, candidates)
    ensures LinksMatch(after, SwappedMap(byTag, expected.Keys, candidates))
  {
    var now := SwappedMap(byTag, expected.Keys, candidates);
    CandidateMapIs(candidates);
    forall d, t ensures Linked(after, d, t) <==> t in now && d in now[t].dependencies {
      assert Linked(before, d, t) <==> t in byTag && d in byTag[t].dependencies;
      ListedByCandidate(candidates, d, t);
      if t in CandidateMap(candidates) {
        assert CandidateMap(candidates)[t] in candidates;
      }
    }
  }

  lemma ListedByCandidate(candidates: seq<Handle>, d: string, t: string)
    requires DistinctTags(candidates)
    ensures Lists(candidates, d, t) <==> t in CandidateMap(candidates) && d in CandidateMap(candidates)[t].dependencies
  {
    CandidateMapIs(candidates);
    if Lists(candidates, d, t) {
      var k :| 0 <= k < |candidates| && candidates[k].tag == t && d in candidates[k].dependencies;
      CandidateAt(candidates, k);
    }
    if t in CandidateMap(candidates) && d in CandidateMap(candidates)[t].dependencies {
      var k :| 0 <= k < |candidates| && candidates[k] == CandidateMap(candidates)[t];
    }
  }

  /* The list and the map still agree. */

  ghost predicate InPlaceOf(list: seq<Handle>, removed: set<string>, candidates: TagMap, h: Handle) {
    || (h in list && h.tag !in removed)
    || (h.tag in removed && h.tag in candidates && candidates[h.tag] == h && exists k :: 0 <= k < |list| && list[k].tag == h.tag)
  }

  lemma {:induction false} InPlaceMembers(list: seq<Handle>, removed: set<string>, candidates: TagMap, h: Handle)
    requires forall t :: t in candidates ==> candidates[t].tag == t
    ensures h in InPlace(list, removed, candidates) <==> InPlaceOf(list, removed, candidates, h)
  {
    if list != [] {
      var front, last := list[..|list| - 1], list[|list| - 1];
      assert list == front + [last];
      InPlaceMembers(front, removed, candidates, h);
      if InPlaceOf(front, removed, candidates, h) {
        InPlaceOfMore(front, last, removed, candidates, h);
      }
      if InPlaceOf(list, removed, candidates, h) && h.tag != last.tag {
        InPlaceOfLess(front, last, removed, candidates, h);
      }
    }
  }

  lemma InPlaceOfMore(front: seq<Handle>, last: Handle, removed: set<string>, candidates: TagMap, h: Handle)
    requires InPlaceOf(front, removed, candidates, h)
    ensures InPlaceOf(front + [last], removed, candidates, h)
  {
    if h.tag in removed {
      var k :| 0 <= k < |front| && front[k].tag == h.tag;
      assert (front + [last])[k].tag == h.tag;
    }
  }

  lemma InPlaceOfLess(front: seq<Handle>, last: Handle, removed: set<string>, candidates: TagMap, h: Handle)
    requires InPlaceOf(front + [last], removed, candidates, h) && h.tag != last.tag
    ensures InPlaceOf(front, removed, candidates, h)
  {
    if h.tag in removed {
      var k :| 0 <= k < |front + [last]| && (front + [last])[k].tag == h.tag;
      assert front[k].tag == h.tag;
    }
  }

  lemma {:induction false} InPlaceDistinct(list: seq<Handle>, removed: set<string>, candidates: TagMap)
    requires DistinctTags(list) && forall t :: t in candidates ==> candidates[t].tag == t
    ensures DistinctTags(InPlace(list, removed, candidates))
  {
    if list != [] {
      var front, last := list[..|list| - 1], list[|list| - 1];
      InPlaceDistinct(front, removed, candidates);
      var rest := InPlace(front, removed, candidates);
      forall k | 0 <= k < |rest| ensures rest[k].tag != last.tag {
        InPlaceMembers(front, removed, candidates, rest[k]);
        assert rest[k] in rest;
        if rest[k].tag in removed {
          var m :| 0 <= m < |front| && front[m].tag == rest[k].tag;
          assert list[m] == front[m];
        } else {
          var m :| 0 <= m < |front| && front[m] == rest[k];
          assert list[m] == front[m];
        }
      }
    }
  }

  lemma {:induction false} AddedDistinct(candidates: seq<Handle>, removed: set<string>)
    requires DistinctTags(candidates)
    ensures DistinctTags(Added(candidates, removed))
  {
    if candidates != [] {
      var last := |candidates| - 1;
      AddedDistinct(candidates[..last], removed);
      AddedMembers(candidates[..last], removed);
      var rest := Added(candidates[..last], removed);
      forall k | 0 <= k < |rest| ensures rest[k].tag != candidates[last].tag {
        assert rest[k] in candidates[..last];
      }
    }
  }

  ghost predicate Fits(byTag: TagMap, removed: set<string>, candidates: seq<Handle>) {
    && DistinctTags(candidates)
    && forall c :: c in candidates && c.tag in byTag ==> c.tag in removed
  }

  lemma SwappedMember(list: seq<Handle>, byTag: TagMap, removed: set<string>, candidates: seq<Handle>, h: Handle)
    requires ListMatches(list, byTag) && removed <= byTag.Keys && Fits(byTag, removed, candidates)
    ensures h in SwappedList(list, removed, candidates)
            <==> h.tag in SwappedMap(byTag, removed, candidates) && SwappedMap(byTag, removed, candidates)[h.tag] == h
  {
    CandidateMapIs(candidates);
    var c := CandidateMap(candidates);
    InPlaceMembers(list, removed, c, h);
    AddedMembers(candidates, removed);
    if h.tag in removed {
      assert byTag[h.tag] in list;
      var k :| 0 <= k < |list| && list[k] == byTag[h.tag];
    }
    if h in candidates {
      var k :| 0 <= k < |candidates| && candidates[k] == h;
      CandidateAt(candidates, k);
    }
  }

  lemma SwappedDistinct(list: seq<Handle>, byTag: TagMap, removed: set<string>, candidates: seq<Handle>)
    requires ListMatches(list, byTag) && removed <= byTag.Keys && Fits(byTag, removed, candidates)
    ensures DistinctTags(SwappedList(list, removed, candidates))
  {
    CandidateMapIs(candidates);
    var c := CandidateMap(candidates);
    var a, b := InPlace(list, removed, c), Added(candidates, removed);
    InPlaceDistinct(list, removed, c);
    AddedDistinct(candidates, removed);
    AddedMembers(candidates, removed);
    forall i, j | 0 <= i < |a| && 0 <= j < |b| ensures a[i].tag != b[j].tag {
      InPlaceMembers(list, removed, c, a[i]);
      assert a[i] in a && b[j] in b;
      assert b[j].tag !in byTag;
    }
  }

  lemma SwappedMatches(list: seq<Handle>, byTag: TagMap, removed: set<string>, candidates: seq<Handle>)
    requires ListMatches(list, byTag) && removed <= byTag.Keys && Fits(byTag, removed, candidates)
    ensures ListMatches(SwappedList(list, removed, candidates), SwappedMap(byTag, removed, candidates))
  {
    var r, m := SwappedList(list, removed, candidates), SwappedMap(byTag, removed, candidates);
    SwappedDistinct(list, byTag, removed, candidates);
    CandidateMapIs(candidates);
    forall i | 0 <= i < |r| ensures r[i].tag in m && m[r[i].tag] == r[i] {
      SwappedMember(list, byTag, removed, candidates, r[i]);
    }
    forall t | t in m ensures m[t].tag == t && m[t] in r {
      SwappedMember(list, byTag, removed, candidates, m[t]);
    }
  }

  lemma FirstIsRegistered(list: seq<Handle>, byTag: TagMap, endpoints: TagMap)
    requires ListMatches(list, byTag)
    ensures DefaultOk(First(list), byTag, endpoints)
  {}

  lemma SwappedDefaultOk(before: Registry, endpoints: TagMap, defaultTag: string, expected: TagMap,
                         candidates: seq<Handle>, after: Registry)
    requires DefaultOk(before.default, before.byTag, endpoints) && Swapped(before, defaultTag, expected, candidates, after)
    requires ListMatches(after.outbounds, after.byTag) && Fits(before.byTag, expected.Keys, candidates)
    ensures DefaultOk(after.default, after.byTag, endpoints)
  {
    CandidateMapIs(candidates);
    FirstIsRegistered(after.outbounds, after.byTag, endpoints);
  }

  /** The invariants hold after an accepted swap, and whoever stays keeps every
      dependency it could resolve. */
  lemma SwappedKeeps(before: Registry, endpoints: TagMap, defaultTag: string, expected: TagMap,
                     candidates: seq<Handle>, after: Registry)
    requires Consistent(before, endpoints) && SwapAllowed(before, endpoints, expected, candidates)
    requires Swapped(before, defaultTag, expected, candidates, after)
    ensures Consistent(after, endpoints) && KeepsDependencies(before.byTag, after.byTag, endpoints)
  {
    SwappedMatches(before.outbounds, before.byTag, expected.Keys, candidates);
    SwappedDefaultOk(before, endpoints, defaultTag, expected, candidates, after);
    SwappedLinksMatch(before.dependBy, after.dependBy, before.byTag, expected, candidates);
    StayersKeep(before, endpoints, expected, candidates);
  }

  lemma StayersKeep(before: Registry, endpoints: TagMap, expected: TagMap, candidates: seq<Handle>)
    requires SwapAllowed(before, endpoints, expected, candidates)
    ensures KeepsDependencies(before.byTag, SwappedMap(before.byTag, expected.Keys, candidates), endpoints)
  {
    CandidateMapIs(candidates);
    var after := SwappedMap(before.byTag, expected.Keys, candidates);
    forall t, d | t in before.byTag && t in after && before.byTag[t] == after[t] && d in before.byTag[t].dependencies
                  && Resolves(before.byTag, endpoints, d)
      ensures Resolves(after, endpoints, d)
    {
      if d in expected {
        assert t in expected;
        assert after[t] in candidates;
      }
    }
  }
}
