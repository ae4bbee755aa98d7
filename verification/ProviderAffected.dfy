/** Which provider outbounds an update has to rebuild
    (adapter/provider/graph.go, affectedOutbounds). */
module ProviderAffected {
  import opened ProviderOptions
  import opened ProviderSort
  import opened ProviderPrepare

  /** Added, removed or changed by the update itself. */
  ghost predicate Changed(before: seq<Prepared>, after: seq<Prepared>, tag: string) {
    var o, n := ByTag(before), ByTag(after);
    if tag in o && tag in n then o[tag].source != n[tag].source else tag in o || tag in n
  }

  predicate Depends(e: Prepared, tags: set<string>) {
    exists k :: 0 <= k < |e.dependencies| && e.dependencies[k] in tags
  }

  ghost predicate Closed(list: seq<Prepared>, tags: set<string>) {
    forall k :: 0 <= k < |list| && Depends(list[k], tags) ==> list[k].tag in tags
  }

  /** Holds the changed tags and everything that depends on a member, before or after. */
  ghost predicate Covers(before: seq<Prepared>, after: seq<Prepared>, tags: set<string>) {
    && (forall t :: Changed(before, after, t) ==> t in tags)
    && Closed(before, tags) && Closed(after, tags)
  }

  ghost predicate LeastCover(before: seq<Prepared>, after: seq<Prepared>, tags: set<string>) {
    && Covers(before, after, tags)
    && (forall other :: Covers(before, after, other) ==> tags <= other)
  }

  /** Inside every cover: nothing was added without need. */
  ghost predicate Needed(before: seq<Prepared>, after: seq<Prepared>, tags: set<string>) {
    forall other :: Covers(before, after, other) ==> tags <= other
  }

  lemma DependsMonotone(e: Prepared, small: set<string>, large: set<string>)
    requires Depends(e, small) && small <= large
    ensures Depends(e, large)
  {
    var k :| 0 <= k < |e.dependencies| && e.dependencies[k] in small;
    assert e.dependencies[k] in large;
  }

  lemma NeededStep(before: seq<Prepared>, after: seq<Prepared>, tags: set<string>, list: seq<Prepared>, k: nat)
    requires Needed(before, after, tags) && k < |list| && Depends(list[k], tags)
    requires list == before || list == after
    ensures Needed(before, after, tags + {list[k].tag})
  {
    forall other | Covers(before, after, other) ensures tags + {list[k].tag} <= other {
      DependsMonotone(list[k], tags, other);
    }
  }

  method DependsOnAny(e: Prepared, tags: set<string>) returns (r: bool)
    ensures r == Depends(e, tags)
  {
    for i := 0 to |e.dependencies|
      invariant forall k :: 0 <= k < i ==> e.dependencies[k] !in tags
    {
      if e.dependencies[i] in tags {
        return true;
      }
    }
    return false;
  }

  /** One pass over one of the two lists. */
  method Sweep(ghost before: seq<Prepared>, ghost after: seq<Prepared>, list: seq<Prepared>, start: set<string>)
    returns (tags: set<string>, changed: bool)
    requires list == before || list == after
    requires Needed(before, after, start)
    ensures Needed(before, after, tags)
    ensures start <= tags <= start + TagSet(list)
    ensures changed <==> tags != start
    ensures !changed ==> Closed(list, tags)
  {
    tags, changed := start, false;
    for i := 0 to |list|
      invariant Needed(before, after, tags)
      invariant start <= tags <= start + TagSet(list)
      invariant changed <==> tags != start
      invariant !changed ==> forall k :: 0 <= k < i && Depends(list[k], tags) ==> list[k].tag in tags
    {
      if list[i].tag !in tags {
        var depends := DependsOnAny(list[i], tags);
        if depends {
          NeededStep(before, after, tags, list, i);
          tags, changed := tags + {list[i].tag}, true;
        }
      }
    }
  }

  method DirectlyChanged(before: seq<Prepared>, after: seq<Prepared>) returns (tags: set<string>)
    ensures forall t :: t in tags <==> Changed(before, after, t)
  {
    var o := IndexByTag(before);
    var n := IndexByTag(after);
    tags := {};
    var rest := o.Keys;
    while rest != {}
      invariant rest <= o.Keys
      invariant forall t :: t in tags <==> t in o && t !in rest && Changed(before, after, t)
      decreases |rest|
    {
      var tag :| tag in rest;
      if tag !in n || o[tag].source != n[tag].source {
        tags := tags + {tag};
      }
      rest := rest - {tag};
    }
    rest := n.Keys;
    while rest != {}
      invariant rest <= n.Keys
      invariant forall t :: t in tags <==> Changed(before, after, t) && (t in o || t !in rest)
      decreases |rest|
    {
      var tag :| tag in rest;
      if tag !in o {
        tags := tags + {tag};
      }
      rest := rest - {tag};
    }
  }

  /** Exactly the least set that holds every added, removed or changed tag and
      is closed under "depends on" in both lists. */
  method AffectedOutbounds(before: seq<Prepared>, after: seq<Prepared>) returns (affected: set<string>)
    ensures LeastCover(before, after, affected)
  {
    affected := DirectlyChanged(before, after);
    ghost var base := affected;
    ghost var all := base + TagSet(before) + TagSet(after);
    var changed := true;
    while changed
      invariant base <= affected <= all && Needed(before, after, affected)
      invariant !changed ==> Closed(before, affected) && Closed(after, affected)
      decreases all - affected, changed
    {
      var first, changedFirst := Sweep(before, after, before, affected);
      var second, changedSecond := Sweep(before, after, after, first);
      affected, changed := second, changedFirst || changedSecond;
    }
  }

  /** The order the provider keeps for a list of sources without clashing tags. */
  ghost predicate Arranges(provider: string, sources: seq<Outbound>, detour: string, list: seq<Prepared>) {
    var all := PrepareAll(provider, sources, detour);
    DistinctTags(all) && Ordered(ByTag(all), list) && TagSet(list) == TagSet(all)
  }

  lemma ArrangedFrom(provider: string, sources: seq<Outbound>, detour: string, list: seq<Prepared>, e: Prepared)
    returns (i: nat)
    requires Arranges(provider, sources, detour, list) && e in list
    ensures i < |sources| && e == PrepareOne(provider, TagsOf(provider, sources), detour, sources[i], i)
  {
    var all := PrepareAll(provider, sources, detour);
    OrderedIsPermutation(all, list);
    assert e in multiset(list) && e in all;
    i :| 0 <= i < |all| && all[i] == e;
  }

  lemma ArrangedByTag(provider: string, sources: seq<Outbound>, detour: string, list: seq<Prepared>, e: Prepared)
    requires Arranges(provider, sources, detour, list) && e in list
    ensures e.tag in ByTag(list) && ByTag(list)[e.tag] == e
  {
    var f := ByTag(list)[e.tag];
    var a :| 0 <= a < |list| && list[a] == e;
    var b :| 0 <= b < |list| && list[b] == f;
    assert a == b;
  }

  /** The outbound a source name stands for in the list. */
  lemma NameStandsFor(provider: string, sources: seq<Outbound>, detour: string, list: seq<Prepared>, name: string)
    returns (e: Prepared)
    requires Arranges(provider, sources, detour, list) && name in TagsOf(provider, sources)
    ensures e in list && e.tag == Qualified(provider, name) && e.source.tag == name
  {
    var all := PrepareAll(provider, sources, detour);
    var i :| 0 <= i < |sources| && sources[i].tag == name;
    OrderedIsPermutation(all, list);
    e := all[i];
    assert e in multiset(all) && e in list;
  }

  /** A dependency of an unaffected outbound is unaffected. */
  lemma UnaffectedDependency(list: seq<Prepared>, affected: set<string>, e: Prepared, dependency: string)
    requires Closed(list, affected) && e in list && e.tag !in affected && dependency in e.dependencies
    ensures dependency !in affected
  {
    var k :| 0 <= k < |list| && list[k] == e;
    assert !Depends(list[k], affected);
  }

  /** A name that stands for the same source on both sides is internal on both. */
  lemma NameCarriesOver(provider: string, detour: string,
                        here: seq<Outbound>, listHere: seq<Prepared>, there: seq<Outbound>, listThere: seq<Prepared>,
                        name: string)
    requires Arranges(provider, here, detour, listHere) && Arranges(provider, there, detour, listThere)
    requires !Changed(listHere, listThere, Qualified(provider, name)) && name in TagsOf(provider, here)
    ensures name in TagsOf(provider, there)
  {
    var q := Qualified(provider, name);
    var f := NameStandsFor(provider, here, detour, listHere, name);
    ArrangedByTag(provider, here, detour, listHere, f);
    var g := ByTag(listThere)[q];
    var i := ArrangedFrom(provider, there, detour, listThere, g);
    assert there[i].tag == name;
  }

  lemma ChangedBothWays(before: seq<Prepared>, after: seq<Prepared>, tag: string)
    ensures Changed(before, after, tag) == Changed(after, before, tag)
  {}

  lemma SlotIsDependency(o: Options, tags: TagMap, slot: string)
    requires slot in Slots(o) && Internal(tags, slot)
    ensures tags[slot] in References(o, tags)
  {
    ReferencesAre(o, tags);
  }

  lemma SameRewriting(provider: string, o: Options, olds: seq<Outbound>, news: seq<Outbound>)
    requires forall slot :: slot in Slots(o) ==>
               (Internal(TagsOf(provider, olds), slot) <==> Internal(TagsOf(provider, news), slot))
    ensures Rewritten(o, TagsOf(provider, olds)) == Rewritten(o, TagsOf(provider, news))
    ensures References(o, TagsOf(provider, olds)) == References(o, TagsOf(provider, news))
  {}

  lemma SameSlots(provider: string, detour: string,
                  olds: seq<Outbound>, before: seq<Prepared>, news: seq<Outbound>, after: seq<Prepared>,
                  affected: set<string>, e: Prepared, f: Prepared, slot: string)
    requires Arranges(provider, olds, detour, before) && Arranges(provider, news, detour, after)
    requires Covers(before, after, affected)
    requires e in before && f in after && e.tag == f.tag && e.tag !in affected && e.source == f.source
    requires slot in Slots(Defaulted(e.source.options, detour))
    ensures Internal(TagsOf(provider, olds), slot) <==> Internal(TagsOf(provider, news), slot)
  {
    var o := Defaulted(e.source.options, detour);
    if Internal(TagsOf(provider, olds), slot) {
      var i := ArrangedFrom(provider, olds, detour, before, e);
      SlotIsDependency(o, TagsOf(provider, olds), slot);
      UnaffectedDependency(before, affected, e, Qualified(provider, slot));
      NameCarriesOver(provider, detour, olds, before, news, after, slot);
    }
    if Internal(TagsOf(provider, news), slot) {
      var j := ArrangedFrom(provider, news, detour, after, f);
      SlotIsDependency(o, TagsOf(provider, news), slot);
      UnaffectedDependency(after, affected, f, Qualified(provider, slot));
      ChangedBothWays(before, after, Qualified(provider, slot));
      NameCarriesOver(provider, detour, news, after, olds, before, slot);
    }
  }

  /** Two outbounds of one tag, from equal sources, that the update does not
      affect are the same at run time. */
  lemma SameRuntime(provider: string, detour: string,
                    olds: seq<Outbound>, before: seq<Prepared>, news: seq<Outbound>, after: seq<Prepared>,
                    affected: set<string>, e: Prepared, f: Prepared)
    requires Arranges(provider, olds, detour, before) && Arranges(provider, news, detour, after)
    requires Covers(before, after, affected)
    requires e in before && f in after && e.tag == f.tag && e.tag !in affected && e.source == f.source
    ensures e.runtime == f.runtime && e.dependencies == f.dependencies
  {
    var i := ArrangedFrom(provider, olds, detour, before, e);
    var j := ArrangedFrom(provider, news, detour, after, f);
    var o := Defaulted(e.source.options, detour);
    forall slot | slot in Slots(o)
      ensures Internal(TagsOf(provider, olds), slot) <==> Internal(TagsOf(provider, news), slot)
    {
      SameSlots(provider, detour, olds, before, news, after, affected, e, f, slot);
    }
    SameRewriting(provider, o, olds, news);
  }

  /** Every unaffected outbound is registered before and after, from the same
      source, with identical runtime options and dependencies. */
  lemma UnaffectedIsIdentical(provider: string, detour: string,
                              olds: seq<Outbound>, before: seq<Prepared>, news: seq<Outbound>, after: seq<Prepared>,
                              affected: set<string>, tag: string)
    requires Arranges(provider, olds, detour, before) && Arranges(provider, news, detour, after)
    requires Covers(before, after, affected) && tag !in affected
    ensures tag in ByTag(before) <==> tag in ByTag(after)
    ensures tag in ByTag(before) ==>
              var e, f := ByTag(before)[tag], ByTag(after)[tag];
              e.source == f.source && e.runtime == f.runtime && e.dependencies == f.dependencies
  {
    assert !Changed(before, after, tag);
    if tag in ByTag(before) {
      SameRuntime(provider, detour, olds, before, news, after, affected, ByTag(before)[tag], ByTag(after)[tag]);
    }
  }
}
