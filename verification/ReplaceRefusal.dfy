/** Whether a provider update is refused does not hang on the order in which the
    outbounds were sorted (adapter/provider/graph.go, replaceStartedOutbounds). */
module ReplaceRefusal {
  import opened Common
  import opened OutboundManager
  import opened OutboundSwap
  import opened ProviderAffected
  import opened ReplaceOutbounds
  import PS = ProviderSort

  ghost predicate SameOutbounds(a: seq<Prepared>, b: seq<Prepared>) {
    forall e :: e in a <==> e in b
  }

  lemma TagOf(list: seq<Prepared>, t: string)
    ensures t in PS.TagSet(list) <==> exists e :: e in list && e.tag == t
  {
    if t in PS.TagSet(list) {
      var k :| 0 <= k < |list| && list[k].tag == t;
      assert list[k] in list;
    }
  }

  lemma SameTags(a: seq<Prepared>, b: seq<Prepared>)
    requires SameOutbounds(a, b)
    ensures PS.TagSet(a) == PS.TagSet(b)
  {
    forall t ensures t in PS.TagSet(a) <==> t in PS.TagSet(b) {
      TagOf(a, t);
      TagOf(b, t);
    }
  }

  lemma SameSelected(a: seq<Prepared>, b: seq<Prepared>, tags: set<string>)
    requires SameOutbounds(a, b)
    ensures SameOutbounds(Select(a, tags), Select(b, tags))
  {
    SelectMembers(a, tags);
    SelectMembers(b, tags);
  }

  lemma SameEmpty(a: seq<Prepared>, b: seq<Prepared>)
    requires SameOutbounds(a, b)
    ensures a == [] <==> b == []
  {
    assert a != [] ==> a[0] in b;
    assert b != [] ==> b[0] in a;
  }

  /* The affected outbounds. */

  lemma SameByTag(a: seq<Prepared>, b: seq<Prepared>)
    requires SameOutbounds(a, b) && PS.DistinctTags(a)
    ensures PS.ByTag(a) == PS.ByTag(b)
  {
    forall t | t in PS.ByTag(a) ensures t in PS.ByTag(b) && PS.ByTag(b)[t] == PS.ByTag(a)[t] {
      assert PS.ByTag(a)[t] in b;
      SameTagSameOutbound(a, PS.ByTag(a)[t], PS.ByTag(b)[t]);
    }
    forall t | t in PS.ByTag(b) ensures t in PS.ByTag(a) {
      assert PS.ByTag(b)[t] in a;
    }
  }

  lemma SameClosed(a: seq<Prepared>, b: seq<Prepared>, tags: set<string>)
    requires SameOutbounds(a, b) && Closed(a, tags)
    ensures Closed(b, tags)
  {
    forall k | 0 <= k < |b| && Depends(b[k], tags) ensures b[k].tag in tags {
      assert b[k] in a;
      var i :| 0 <= i < |a| && a[i] == b[k];
    }
  }

  lemma SameCovers(before: seq<Prepared>, before': seq<Prepared>, after: seq<Prepared>, after': seq<Prepared>, tags: set<string>)
    requires SameOutbounds(before, before') && SameOutbounds(after, after')
    requires PS.DistinctTags(before) && PS.DistinctTags(after)
    requires Covers(before, after, tags)
    ensures Covers(before', after', tags)
  {
    SameByTag(before, before');
    SameByTag(after, after');
    assert forall t :: Changed(before', after', t) ==> Changed(before, after, t);
    SameClosed(before, before', tags);
    SameClosed(after, after', tags);
  }

  /** The affected outbounds are the same for every order. */
  lemma SameAffected(before: seq<Prepared>, before': seq<Prepared>, after: seq<Prepared>, after': seq<Prepared>,
                     affected: set<string>, affected': set<string>)
    requires SameOutbounds(before, before') && SameOutbounds(after, after')
    requires PS.DistinctTags(before) && PS.DistinctTags(after) && PS.DistinctTags(before') && PS.DistinctTags(after')
    requires LeastCover(before, after, affected) && LeastCover(before', after', affected')
    ensures affected == affected'
  {
    SameCovers(before, before', after, after', affected);
    SameCovers(before', before, after', after, affected');
  }

  /* The candidates. */

  lemma SameNotApplied(after: seq<Prepared>, after': seq<Prepared>, affected: set<string>, build: Prepared -> Option<Handle>,
                       byTag: TagMap, endpoints: TagMap, stages: nat, startOk: (Handle, nat) -> bool, done: bool)
    requires Topological(after) && PS.DistinctTags(after) && Topological(after') && PS.DistinctTags(after')
    requires SameOutbounds(after, after')
    ensures NotApplied(after, affected, build, byTag, endpoints, stages, startOk, done)
         == NotApplied(after', affected, build, byTag, endpoints, stages, startOk, done)
  {
    var invalid := NotApplied(after, affected, build, byTag, endpoints, stages, startOk, done);
    SameSelected(after, after', affected);
    SameTags(Select(after, affected), Select(after', affected));
    ReasonsDecide(after, affected, build, invalid, byTag, endpoints, stages, startOk, done);
    ReasonsDecide(after', affected, build, invalid, byTag, endpoints, stages, startOk, done);
  }

  lemma {:induction false} RebuiltMembers(list: seq<Prepared>, invalid: set<string>, build: Prepared -> Option<Handle>)
    ensures forall h :: h in Rebuilt(list, invalid, build)
                        <==> exists e :: e in list && e.tag !in invalid && Candidate(e, build).handle == h
  {
    if list != [] {
      var front, last := list[..|list| - 1], list[|list| - 1];
      assert list == front + [last];
      RebuiltMembers(front, invalid, build);
      forall h ensures h in Rebuilt(list, invalid, build)
                       <==> exists e :: e in list && e.tag !in invalid && Candidate(e, build).handle == h
      {
        if e :| e in list && e.tag !in invalid && Candidate(e, build).handle == h {
          assert e in front || e == last;
        }
        if e :| e in front && e.tag !in invalid && Candidate(e, build).handle == h {
          assert e in list;
        }
      }
    }
  }

  /** Each outbound that is put in was built under its own tag. */
  ghost predicate NamedAlike(list: seq<Prepared>, invalid: set<string>, build: Prepared -> Option<Handle>) {
    forall e :: e in list && e.tag !in invalid ==> Candidate(e, build).handle.tag == e.tag
  }

  lemma {:induction false} RebuiltDistinct(list: seq<Prepared>, invalid: set<string>, build: Prepared -> Option<Handle>)
    requires PS.DistinctTags(list) && NamedAlike(list, invalid, build)
    ensures DistinctTags(Rebuilt(list, invalid, build))
  {
    if list != [] {
      var front, last := list[..|list| - 1], list[|list| - 1];
      assert list == front + [last];
      RebuiltDistinct(front, invalid, build);
      RebuiltMembers(front, invalid, build);
      var r := Rebuilt(front, invalid, build);
      if last.tag !in invalid {
        forall k | 0 <= k < |r| ensures r[k].tag != last.tag {
          assert r[k] in r;
          var e :| e in front && e.tag !in invalid && Candidate(e, build).handle == r[k];
          var p :| 0 <= p < |front| && front[p] == e;
          assert list[p] == e;
        }
      }
    }
  }

  lemma SameCandidates(a: seq<Handle>, b: seq<Handle>)
    requires DistinctTags(a) && DistinctTags(b) && forall h :: h in a <==> h in b
    ensures CandidateMap(a) == CandidateMap(b)
  {
    CandidateMapIs(a);
    CandidateMapIs(b);
    forall t | t in CandidateMap(a) ensures t in CandidateMap(b) && CandidateMap(b)[t] == CandidateMap(a)[t] {
      CandidateIn(b, CandidateMap(a)[t]);
    }
    forall t | t in CandidateMap(b) ensures t in CandidateMap(a) {
      CandidateIn(a, CandidateMap(b)[t]);
    }
  }

  lemma CandidateIn(a: seq<Handle>, h: Handle)
    requires DistinctTags(a) && h in a
    ensures h.tag in CandidateMap(a) && CandidateMap(a)[h.tag] == h
  {
    var k :| 0 <= k < |a| && a[k] == h;
    CandidateAt(a, k);
  }

  lemma AllowedToo(r: Registry, endpoints: TagMap, expected: TagMap, a: seq<Handle>, b: seq<Handle>)
    requires DistinctTags(a) && DistinctTags(b) && forall h :: h in a <==> h in b
    requires SwapAllowed(r, endpoints, expected, a)
    ensures SwapAllowed(r, endpoints, expected, b)
  {
    SameCandidates(a, b);
    assert SwappedMap(r.byTag, expected.Keys, a) == SwappedMap(r.byTag, expected.Keys, b);
    forall c | c in b ensures c.tag != "" && (c.tag in r.byTag ==> c.tag in expected) {
      assert c in a;
    }
    forall c, d | c in b && d in c.dependencies ensures Resolves(SwappedMap(r.byTag, expected.Keys, b), endpoints, d) {
      assert c in a;
    }
  }

  lemma SameAllowed(r: Registry, endpoints: TagMap, expected: TagMap, a: seq<Handle>, b: seq<Handle>)
    requires DistinctTags(a) && DistinctTags(b) && forall h :: h in a <==> h in b
    ensures SwapAllowed(r, endpoints, expected, a) <==> SwapAllowed(r, endpoints, expected, b)
  {
    if SwapAllowed(r, endpoints, expected, a) {
      AllowedToo(r, endpoints, expected, a, b);
    }
    if SwapAllowed(r, endpoints, expected, b) {
      AllowedToo(r, endpoints, expected, b, a);
    }
  }

  lemma AppliedNamedAlike(after: seq<Prepared>, affected: set<string>, build: Prepared -> Option<Handle>, byTag: TagMap,
                          endpoints: TagMap, stages: nat, startOk: (Handle, nat) -> bool, done: bool, started: set<nat>)
    requires Topological(after) && PS.DistinctTags(after) && FreshBuild(after, build, started)
    ensures NamedAlike(Select(after, affected), NotApplied(after, affected, build, byTag, endpoints, stages, startOk, done), build)
  {
    var invalid := NotApplied(after, affected, build, byTag, endpoints, stages, startOk, done);
    SelectMembers(after, affected);
    ReasonsDecide(after, affected, build, invalid, byTag, endpoints, stages, startOk, done);
  }

  lemma SameNoSwap(registry: Registry, endpoints: TagMap, before: seq<Prepared>, before': seq<Prepared>, after: seq<Prepared>,
                   after': seq<Prepared>, build: Prepared -> Option<Handle>, stages: nat, startOk: (Handle, nat) -> bool,
                   done: bool, affected: set<string>, started: set<nat>)
    requires SameOutbounds(before, before') && SameOutbounds(after, after')
    requires Topological(after) && PS.DistinctTags(after) && Topological(after') && PS.DistinctTags(after')
    requires FreshBuild(after, build, started)
    ensures NoSwap(registry, endpoints, before, after, build, stages, startOk, done, affected)
         == NoSwap(registry, endpoints, before', after', build, stages, startOk, done, affected)
  {
    var invalid := NotApplied(after, affected, build, registry.byTag, endpoints, stages, startOk, done);
    var list, list' := Select(after, affected), Select(after', affected);
    SameNotApplied(after, after', affected, build, registry.byTag, endpoints, stages, startOk, done);
    SameTags(before, before');
    SameTags(after, after');
    SameSelected(after, after', PS.TagSet(after) - invalid);
    SameEmpty(after, after');
    SameEmpty(AppliedOf(after, invalid), AppliedOf(after', invalid));
    SameSelected(after, after', affected);
    SelectTopological(after, affected);
    SelectTopological(after', affected);
    AppliedNamedAlike(after, affected, build, registry.byTag, endpoints, stages, startOk, done, started);
    RebuiltDistinct(list, invalid, build);
    RebuiltDistinct(list', invalid, build);
    SameRebuilt(list, list', invalid, build);
    SameAllowed(registry, endpoints, ExpectedOf(before, affected, registry.byTag, endpoints),
                Rebuilt(list, invalid, build), Rebuilt(list', invalid, build));
  }

  lemma SameRebuilt(a: seq<Prepared>, b: seq<Prepared>, invalid: set<string>, build: Prepared -> Option<Handle>)
    requires SameOutbounds(a, b)
    ensures forall h :: h in Rebuilt(a, invalid, build) <==> h in Rebuilt(b, invalid, build)
  {
    RebuiltMembers(a, invalid, build);
    RebuiltMembers(b, invalid, build);
  }

  /** The inputs alone decide whether the replacement is refused: two orders of
      the same outbounds have the same affected ones and the same outcome. */
  lemma RefusalDecided(registry: Registry, endpoints: TagMap, registered: bool, before: seq<Prepared>, before': seq<Prepared>,
                       after: seq<Prepared>, after': seq<Prepared>, build: Prepared -> Option<Handle>, stages: nat,
                       startOk: (Handle, nat) -> bool, done: bool, affected: set<string>, affected': set<string>, started: set<nat>)
    requires SameOutbounds(before, before') && SameOutbounds(after, after')
    requires PS.DistinctTags(before) && PS.DistinctTags(before')
    requires Topological(after) && PS.DistinctTags(after) && Topological(after') && PS.DistinctTags(after')
    requires FreshBuild(after, build, started)
    requires LeastCover(before, after, affected) && LeastCover(before', after', affected')
    ensures affected == affected'
    ensures Refused(registry, endpoints, registered, before, after, build, stages, startOk, done, affected)
            <==> Refused(registry, endpoints, registered, before', after', build, stages, startOk, done, affected')
  {
    SameAffected(before, before', after, after', affected, affected');
    SameNoSwap(registry, endpoints, before, before', after, after', build, stages, startOk, done, affected, started);
  }
}
