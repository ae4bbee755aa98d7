/** When a provider's default detour makes its outbounds depend on one another
    in a cycle (adapter/provider/graph.go, prepareOutbounds). */
module ProviderDetour {
  import opened Common
  import opened Graphs
  import opened ProviderOptions
  import opened ProviderPrepare
  import S = ProviderSort

  type Prepared = S.Prepared

  /** The second graph has one more edge from each node of `sources` to `target`. */
  ghost predicate Extends<N(!new)>(g: Graph<N>, more: Graph<N>, sources: set<N>, target: N) {
    forall a, b :: Edge(more, a, b) <==> Edge(g, a, b) || (a in sources && b == target)
  }

  /** A walk of the larger graph is one of the smaller, or goes to a source and
      later comes from the target. */
  lemma {:induction false} WalkSplits<N(!new)>(g: Graph<N>, more: Graph<N>, sources: set<N>, target: N, p: seq<N>, x: N, z: N)
    requires Extends(g, more, sources, target) && Connects(more, p, x, z)
    ensures Reaches(g, x, z) || (Reaches(g, target, z) && exists s :: s in sources && Reaches(g, x, s))
    decreases |p|
  {
    if |p| == 1 {
      Single(g, x);
    } else {
      FirstEdge(more, p, x, z);
      var y := p[1];
      WalkSplits(g, more, sources, target, p[1..], y, z);
      if Edge(g, x, y) {
        EdgeReaches(g, x, y);
        if Reaches(g, y, z) {
          ReachesTransitive(g, x, y, z);
        } else {
          var s :| s in sources && Reaches(g, y, s);
          ReachesTransitive(g, x, y, s);
        }
      } else {
        Single(g, x);
      }
    }
  }

  lemma WalkStays<N(!new)>(g: Graph<N>, more: Graph<N>, sources: set<N>, target: N, x: N, z: N)
    requires Extends(g, more, sources, target) && Reaches(g, x, z)
    ensures Reaches(more, x, z)
  {
    var p :| Connects(g, p, x, z);
    assert Connects(more, p, x, z);
  }

  /** The larger graph has a cycle exactly when the target reaches a source. */
  lemma ExtendedAcyclic<N(!new)>(g: Graph<N>, more: Graph<N>, sources: set<N>, target: N)
    requires Extends(g, more, sources, target) && Acyclic(g)
    ensures Acyclic(more) <==> forall s :: s in sources ==> !Reaches(g, target, s)
  {
    forall s | s in sources && Reaches(g, target, s) ensures !Acyclic(more) {
      WalkStays(g, more, sources, target, target, s);
      CycleByEdge(more, s, target);
    }
    forall x | OnCycle(more, x) ensures exists s :: s in sources && Reaches(g, target, s) {
      var p :| |p| >= 2 && Connects(more, p, x, x);
      FirstEdge(more, p, x, x);
      WalkSplits(g, more, sources, target, p[1..], p[1], x);
      if Edge(g, x, p[1]) {
        if Reaches(g, p[1], x) {
          CycleByEdge(g, x, p[1]);
        } else {
          var s :| s in sources && Reaches(g, p[1], s);
          EdgeReaches(g, x, p[1]);
          ReachesTransitive(g, x, p[1], s);
          ReachesTransitive(g, target, x, s);
        }
      } else {
        assert x in sources && Reaches(g, target, x);
      }
    }
  }

  /** The outbound with the first tag refers to the one with the second, where
      the default detour counts as a reference. */
  ghost predicate Refers(provider: string, sources: seq<Outbound>, detour: string, a: string, b: string) {
    exists i: nat, s ::
      && i < |sources| && a == Qualified(provider, sources[i].tag)
      && s in Slots(Defaulted(sources[i].options, detour)) && s in NamesOf(sources) && b == Qualified(provider, s)
  }

  /** The dependencies of the prepared list are the references of its sources. */
  lemma PreparedEdge(provider: string, sources: seq<Outbound>, detour: string, a: string, b: string)
    requires DistinctNames(sources)
    ensures Edge(S.TagGraph(PrepareAll(provider, sources, detour)), a, b) <==> Refers(provider, sources, detour, a, b)
  {
    var all, tags := PrepareAll(provider, sources, detour), TagsOf(provider, sources);
    var byTag := S.ByTag(all);
    if Edge(S.TagGraph(all), a, b) {
      assert byTag[a] in all;
      var i :| 0 <= i < |all| && all[i] == byTag[a];
      ReferencesAre(Defaulted(sources[i].options, detour), tags);
      var s :| s in Slots(Defaulted(sources[i].options, detour)) && Internal(tags, s) && tags[s] == b;
      assert i < |sources| && s in NamesOf(sources);
    }
    if i: nat, s :| i < |sources| && a == Qualified(provider, sources[i].tag)
                    && s in Slots(Defaulted(sources[i].options, detour)) && s in NamesOf(sources) && b == Qualified(provider, s)
    {
      DistinctNamesGiveDistinctTags(provider, sources, detour);
      TagFinds(all, i);
      ReferencesAre(Defaulted(sources[i].options, detour), tags);
      assert Internal(tags, s);
      var j :| 0 <= j < |sources| && sources[j].tag == s;
      assert all[j] in all && all[j].tag == b;
    }
  }

  lemma TagFinds(all: seq<Prepared>, i: nat)
    requires S.DistinctTags(all) && i < |all|
    ensures all[i].tag in S.ByTag(all) && S.ByTag(all)[all[i].tag] == all[i]
  {
    assert all[i] in all;
    var e := S.ByTag(all)[all[i].tag];
    var j :| 0 <= j < |all| && all[j] == e;
  }

  /** The outbounds that take the default detour. */
  ghost function Takers(provider: string, sources: seq<Outbound>): set<string> {
    set i | 0 <= i < |sources| && sources[i].options.dialer == Some("") :: Qualified(provider, sources[i].tag)
  }

  lemma DetourRefers(provider: string, sources: seq<Outbound>, detour: string, a: string, b: string)
    requires DistinctNames(sources) && detour in NamesOf(sources)
    ensures Refers(provider, sources, detour, a, b) <==>
              Refers(provider, sources, "", a, b) || (a in Takers(provider, sources) && b == Qualified(provider, detour))
  {
    if Refers(provider, sources, detour, a, b) {
      var i: nat, s :| i < |sources| && a == Qualified(provider, sources[i].tag)
                       && s in Slots(Defaulted(sources[i].options, detour)) && s in NamesOf(sources) && b == Qualified(provider, s);
      assert s in Slots(sources[i].options) || (s == detour && sources[i].options.dialer == Some(""));
    }
    if i: nat, s :| i < |sources| && a == Qualified(provider, sources[i].tag)
                    && s in Slots(sources[i].options) && s in NamesOf(sources) && b == Qualified(provider, s)
    {
      assert s in Slots(Defaulted(sources[i].options, detour));
    }
    if a in Takers(provider, sources) && b == Qualified(provider, detour) {
      var i :| 0 <= i < |sources| && sources[i].options.dialer == Some("") && a == Qualified(provider, sources[i].tag);
      assert detour in Slots(Defaulted(sources[i].options, detour));
    }
  }

  lemma DetourExtends(provider: string, sources: seq<Outbound>, detour: string)
    requires DistinctNames(sources) && detour in NamesOf(sources)
    ensures Extends(S.TagGraph(PrepareAll(provider, sources, "")), S.TagGraph(PrepareAll(provider, sources, detour)),
                    Takers(provider, sources), Qualified(provider, detour))
  {
    forall a, b ensures
      Edge(S.TagGraph(PrepareAll(provider, sources, detour)), a, b) <==>
      || Edge(S.TagGraph(PrepareAll(provider, sources, "")), a, b)
      || (a in Takers(provider, sources) && b == Qualified(provider, detour))
    {
      PreparedEdge(provider, sources, detour, a, b);
      PreparedEdge(provider, sources, "", a, b);
      DetourRefers(provider, sources, detour, a, b);
    }
  }

  /** The default detour names one of the outbounds, and from there one that
      takes the default detour is reached. */
  ghost predicate DetourLoops(provider: string, sources: seq<Outbound>, detour: string) {
    && detour in NamesOf(sources)
    && exists t :: t in Takers(provider, sources)
                && Reaches(S.TagGraph(PrepareAll(provider, sources, "")), Qualified(provider, detour), t)
  }

  /** Exactly when what the filter kept fails for a circular dependency. */
  lemma DetourCycle(provider: string, outbounds: seq<Outbound>, invalid: F.Verdicts, detour: string)
    requires DistinctNames(outbounds)
    ensures var kept := F.Kept(outbounds, invalid);
            Acyclic(S.TagGraph(PrepareAll(provider, kept, detour))) <==> !DetourLoops(provider, kept, detour)
  {
    var kept := F.Kept(outbounds, invalid);
    KeptNames(outbounds, invalid);
    if detour !in NamesOf(kept) {
      FilteredIsAcyclic(provider, outbounds, invalid, detour);
    } else {
      FilteredIsAcyclic(provider, outbounds, invalid, "");
      DetourExtends(provider, kept, detour);
      ExtendedAcyclic(S.TagGraph(PrepareAll(provider, kept, "")), S.TagGraph(PrepareAll(provider, kept, detour)),
                      Takers(provider, kept), Qualified(provider, detour));
    }
  }

  /** A default detour that takes the default detour itself. */
  lemma DetourCycleHappens(provider: string)
    ensures var sources := [Outbound("a", "", Options(Some(""), None, ""))];
            OnCycle(S.TagGraph(PrepareAll(provider, sources, "a")), Qualified(provider, "a"))
  {
    var sources := [Outbound("a", "", Options(Some(""), None, ""))];
    var tag := Qualified(provider, sources[0].tag);
    assert "a" in NamesOf(sources) && "a" in Slots(Defaulted(sources[0].options, "a"));
    PreparedEdge(provider, sources, "a", tag, tag);
    Single(S.TagGraph(PrepareAll(provider, sources, "a")), tag);
    CycleByEdge(S.TagGraph(PrepareAll(provider, sources, "a")), tag, tag);
  }
}
