/** Provider outbounds made ready for the registry: qualified tags, default
    detour, rewritten references, creation order (adapter/provider/graph.go,
    prepareOutbounds). */
module ProviderPrepare {
  import opened Common
  import opened Decimals
  import opened Graphs
  import opened ProviderOptions
  import opened ProviderSort
  import F = ProviderFilter

  function Qualified(provider: string, name: string): string {
    provider + "/" + name
  }

  function TagsOf(provider: string, sources: seq<Outbound>): TagMap {
    map n | n in NamesOf(sources) :: Qualified(provider, n)
  }

  function RuntimeTag(provider: string, tag: string, index: nat): string {
    if tag != "" then Qualified(provider, tag) else Qualified(provider, "Node #" + Decimal(index + 1))
  }

  /** The detour of the provider, where the outbound can take one and has none. */
  function Defaulted(o: Options, detour: string): Options {
    if detour == "" || o.dialer != Some("") then o else o.(dialer := Some(detour))
  }

  function PrepareOne(provider: string, tags: TagMap, detour: string, source: Outbound, index: nat): Prepared {
    var tag := RuntimeTag(provider, source.tag, index);
    var options := Defaulted(source.options, detour);
    Prepared(source, Outbound(tag, source.kind, Rewritten(options, tags)), tag, References(options, tags), index)
  }

  function PrepareAll(provider: string, sources: seq<Outbound>, detour: string): seq<Prepared> {
    seq(|sources|, i requires 0 <= i < |sources| => PrepareOne(provider, TagsOf(provider, sources), detour, sources[i], i))
  }

  lemma QualifiedInjective(provider: string, a: string, b: string)
    requires Qualified(provider, a) == Qualified(provider, b)
    ensures a == b
  {
    PrefixInjective(provider + "/", a, b);
  }

  method CollectTags(provider: string, sources: seq<Outbound>) returns (tags: TagMap)
    ensures tags == TagsOf(provider, sources)
  {
    tags := map[];
    for i := 0 to |sources|
      invariant tags == TagsOf(provider, sources[..i])
    {
      NamesStep(sources, i);
      if sources[i].tag != "" {
        tags := tags[sources[i].tag := Qualified(provider, sources[i].tag)];
      }
    }
    assert sources[..|sources|] == sources;
  }

  method Prepare(provider: string, tags: TagMap, detour: string, source: Outbound, index: nat) returns (r: Prepared)
    requires source.tag != "" ==> source.tag in tags && tags[source.tag] == Qualified(provider, source.tag)
    requires "" !in tags
    ensures r == PrepareOne(provider, tags, detour, source, index)
  {
    var tag := if source.tag in tags then tags[source.tag] else "";
    if tag == "" {
      tag := Qualified(provider, "Node #" + Decimal(index + 1));
    }
    var options := Defaulted(source.options, detour);
    var rewritten, dependencies := RewriteOutboundReferences(options, tags);
    r := Prepared(source, Outbound(tag, source.kind, rewritten), tag, dependencies, index);
  }

  method PrepareEach(provider: string, sources: seq<Outbound>, detour: string) returns (prepared: seq<Prepared>)
    ensures prepared == PrepareAll(provider, sources, detour)
  {
    var tags := CollectTags(provider, sources);
    prepared := [];
    for i := 0 to |sources|
      invariant |prepared| == i
      invariant forall k :: 0 <= k < i ==> prepared[k] == PrepareOne(provider, tags, detour, sources[k], k)
    {
      assert sources[i].tag != "" ==> sources[i].tag in NamesOf(sources);
      var one := Prepare(provider, tags, detour, sources[i], i);
      prepared := prepared + [one];
    }
  }

  /** Fails exactly when the prepared outbounds depend on one another in a
      cycle; otherwise every outbound is there once and dependencies first. */
  method PrepareOutbounds(provider: string, sources: seq<Outbound>, detour: string)
    returns (r: Result<seq<Prepared>, string>)
    ensures var all := PrepareAll(provider, sources, detour);
            && (r.Ok? <==> Acyclic(TagGraph(all)))
            && (r.Err? ==> OnCycle(TagGraph(all), r.error))
            && (r.Ok? ==> Ordered(ByTag(all), r.value) && TagSet(r.value) == TagSet(all))
            && (r.Ok? && DistinctTags(all) ==> multiset(r.value) == multiset(all))
  {
    var prepared := PrepareEach(provider, sources, detour);
    r := SortOutbounds(prepared);
    if r.Ok? && DistinctTags(prepared) {
      OrderedIsPermutation(prepared, r.value);
    }
  }

  ghost predicate DistinctNames(sources: seq<Outbound>) {
    && (forall i :: 0 <= i < |sources| ==> sources[i].tag != "")
    && (forall i, j :: 0 <= i < j < |sources| ==> sources[i].tag != sources[j].tag)
  }

  lemma DistinctNamesGiveDistinctTags(provider: string, sources: seq<Outbound>, detour: string)
    requires DistinctNames(sources)
    ensures DistinctTags(PrepareAll(provider, sources, detour))
  {
    var all := PrepareAll(provider, sources, detour);
    forall i, j | 0 <= i < j < |all| ensures all[i].tag != all[j].tag {
      if all[i].tag == all[j].tag {
        QualifiedInjective(provider, sources[i].tag, sources[j].tag);
      }
    }
  }

  lemma DistinctNamesFirst(sources: seq<Outbound>, i: nat)
    requires DistinctNames(sources) && i < |sources|
    ensures F.FirstWith(sources, sources[i].tag, i)
  {}

  /** A dependency between prepared outbounds was a reference between their
      sources, when the default detour names none of them. */
  lemma EdgeIsReference(provider: string, sources: seq<Outbound>, detour: string, a: string, b: string)
    returns (i: nat, j: nat)
    requires DistinctNames(sources) && detour !in NamesOf(sources)
    requires Edge(TagGraph(PrepareAll(provider, sources, detour)), a, b)
    ensures i < |sources| && j < |sources|
    ensures a == Qualified(provider, sources[i].tag) && b == Qualified(provider, sources[j].tag)
    ensures sources[j].tag in Slots(sources[i].options)
  {
    var all, tags := PrepareAll(provider, sources, detour), TagsOf(provider, sources);
    var e := ByTag(all)[a];
    assert e in all;
    i :| 0 <= i < |all| && all[i] == e;
    assert a == Qualified(provider, sources[i].tag);
    ReferencesAre(Defaulted(sources[i].options, detour), tags);
    var s :| s in Slots(Defaulted(sources[i].options, detour)) && Internal(tags, s) && tags[s] == b;
    j :| 0 <= j < |sources| && sources[j].tag == s;
  }

  /** The indexes the filter keeps. */
  ghost function KeptIndexes(outbounds: seq<Outbound>, invalid: F.Verdicts): seq<nat> {
    F.Flagged(F.Dooms(outbounds, invalid), false, |outbounds|)
  }

  lemma KeptAt(outbounds: seq<Outbound>, invalid: F.Verdicts, k: nat)
    requires k < |F.Kept(outbounds, invalid)|
    ensures |KeptIndexes(outbounds, invalid)| == |F.Kept(outbounds, invalid)|
    ensures var i := KeptIndexes(outbounds, invalid)[k];
            i < |outbounds| && F.Kept(outbounds, invalid)[k] == outbounds[i] && !F.Doomed(outbounds, invalid, i)
  {
    F.ChosenAt(outbounds, F.Dooms(outbounds, invalid), false, |outbounds|);
  }

  lemma KeptNames(outbounds: seq<Outbound>, invalid: F.Verdicts)
    requires DistinctNames(outbounds)
    ensures DistinctNames(F.Kept(outbounds, invalid))
  {
    var kept := F.Kept(outbounds, invalid);
    forall i | 0 <= i < |kept| ensures kept[i].tag != "" {
      KeptAt(outbounds, invalid, i);
    }
    forall i, j | 0 <= i < j < |kept| ensures kept[i].tag != kept[j].tag {
      KeptAt(outbounds, invalid, i);
      KeptAt(outbounds, invalid, j);
      F.ChosenAt(outbounds, F.Dooms(outbounds, invalid), false, |outbounds|);
    }
  }

  /** Where the source of a prepared tag stood before the filter. */
  function Origin(outbounds: seq<Outbound>, provider: string, tag: string): nat {
    var name := if |tag| > |provider| then tag[|provider| + 1..] else "";
    if name in F.ByTag(outbounds) then F.ByTag(outbounds)[name] else 0
  }

  lemma OriginIs(outbounds: seq<Outbound>, provider: string, i: nat)
    requires DistinctNames(outbounds) && i < |outbounds|
    ensures Origin(outbounds, provider, Qualified(provider, outbounds[i].tag)) == i
  {
    var tag := Qualified(provider, outbounds[i].tag);
    assert tag[|provider| + 1..] == outbounds[i].tag;
    DistinctNamesFirst(outbounds, i);
    F.ByTagIs(outbounds);
    assert F.FirstWith(outbounds, outbounds[i].tag, F.ByTag(outbounds)[outbounds[i].tag]);
  }

  /** A dependency among what the filter kept is an edge of the filter's own
      graph, and starts at an outbound the filter found sound. */
  lemma KeptEdge(provider: string, outbounds: seq<Outbound>, invalid: F.Verdicts, detour: string, a: string, b: string)
    requires DistinctNames(outbounds) && detour !in NamesOf(F.Kept(outbounds, invalid))
    requires Edge(TagGraph(PrepareAll(provider, F.Kept(outbounds, invalid), detour)), a, b)
    ensures var i, j := Origin(outbounds, provider, a), Origin(outbounds, provider, b);
            i < |outbounds| && Edge(F.DetourGraph(outbounds), i, j) && !F.Doomed(outbounds, invalid, i)
  {
    var kept := F.Kept(outbounds, invalid);
    KeptNames(outbounds, invalid);
    var k, m := EdgeIsReference(provider, kept, detour, a, b);
    KeptAt(outbounds, invalid, k);
    KeptAt(outbounds, invalid, m);
    var i, j := KeptIndexes(outbounds, invalid)[k], KeptIndexes(outbounds, invalid)[m];
    OriginIs(outbounds, provider, i);
    OriginIs(outbounds, provider, j);
    DistinctNamesFirst(outbounds, j);
    F.EdgeMeans(outbounds, i, j);
  }

  /** What the filter keeps can always be ordered: preparing it never reports
      a circular dependency. */
  lemma FilteredIsAcyclic(provider: string, outbounds: seq<Outbound>, invalid: F.Verdicts, detour: string)
    requires DistinctNames(outbounds) && detour !in NamesOf(F.Kept(outbounds, invalid))
    ensures Acyclic(TagGraph(PrepareAll(provider, F.Kept(outbounds, invalid), detour)))
    ensures DistinctTags(PrepareAll(provider, F.Kept(outbounds, invalid), detour))
  {
    KeptNames(outbounds, invalid);
    DistinctNamesGiveDistinctTags(provider, F.Kept(outbounds, invalid), detour);
    var g := TagGraph(PrepareAll(provider, F.Kept(outbounds, invalid), detour));
    var h, origin := F.DetourGraph(outbounds), t => Origin(outbounds, provider, t);
    forall a, b | Edge(g, a, b) ensures Edge(h, origin(a), origin(b)) {
      KeptEdge(provider, outbounds, invalid, detour, a, b);
    }
    forall x ensures !OnCycle(g, x) {
      if OnCycle(g, x) {
        CycleImage(g, h, origin, x);
        var y := CycleHasEdge(g, x);
        KeptEdge(provider, outbounds, invalid, detour, x, y);
        F.DoomedByItself(outbounds, invalid, origin(x));
      }
    }
  }
}
