/** The path of an imported list: cleaned and filtered by name, filtered for
    broken chains, prepared, and put in place of the running outbounds
    (adapter/provider/adapter.go, FilterOutbounds and UpdateOutbounds). The
    override patch, the renaming and the name filters are arbitrary functions. */
module ProviderImport {
  import opened Common
  import opened Graphs
  import opened ProviderOptions
  import opened ProviderFilter
  import opened ProviderTags
  import opened ProviderDetour
  import opened ReplaceOutbounds
  import M = OutboundManager
  import OR = OutboundRegistry
  import A = ProviderAffected
  import RR = ReplaceRefusal

  type Matcher = string -> bool

  /** The name filters: what `without` matches goes, and so does what
      `only` does not match. */
  predicate Hidden(without: Option<Matcher>, only: Option<Matcher>, tag: string) {
    (without.Some? && without.value(tag)) || (only.Some? && !only.value(tag))
  }

  function Shown(list: seq<Outbound>, without: Option<Matcher>, only: Option<Matcher>): seq<Outbound> {
    if list == [] then []
    else
      var last := list[|list| - 1];
      Shown(list[..|list| - 1], without, only) + (if Hidden(without, only, last.tag) then [] else [last])
  }

  function HiddenTags(list: seq<Outbound>, without: Option<Matcher>, only: Option<Matcher>): Verdicts {
    if list == [] then map[]
    else
      var last, rest := list[|list| - 1], HiddenTags(list[..|list| - 1], without, only);
      if Hidden(without, only, last.tag) then rest[last.tag := true] else rest
  }

  lemma {:induction false} ShownMembers(list: seq<Outbound>, without: Option<Matcher>, only: Option<Matcher>)
    ensures forall o :: o in Shown(list, without, only) <==> o in list && !Hidden(without, only, o.tag)
  {
    if list != [] {
      var front, last := list[..|list| - 1], list[|list| - 1];
      ShownMembers(front, without, only);
      assert list == front + [last];
    }
  }

  /** Exactly the names of hidden outbounds, all of them invalid. */
  lemma {:induction false} HiddenMembers(list: seq<Outbound>, without: Option<Matcher>, only: Option<Matcher>, tag: string)
    ensures tag in HiddenTags(list, without, only) <==> (exists o :: o in list && o.tag == tag) && Hidden(without, only, tag)
    ensures tag in HiddenTags(list, without, only) ==> Invalid(HiddenTags(list, without, only), tag)
  {
    if list != [] {
      var front, last := list[..|list| - 1], list[|list| - 1];
      HiddenMembers(front, without, only, tag);
      assert list == front + [last];
      assert (exists o :: o in list && o.tag == tag) <==> (exists o :: o in front && o.tag == tag) || last.tag == tag by {
        assert last in list;
      }
    }
  }

  lemma {:induction false} ShownNames(list: seq<Outbound>, without: Option<Matcher>, only: Option<Matcher>)
    requires P.DistinctNames(list)
    ensures P.DistinctNames(Shown(list, without, only))
  {
    if list != [] {
      var front, last := list[..|list| - 1], list[|list| - 1];
      ShownNames(front, without, only);
      ShownMembers(front, without, only);
      var shown := Shown(front, without, only);
      forall k | 0 <= k < |shown| ensures shown[k].tag != last.tag {
        assert shown[k] in shown;
        var i :| 0 <= i < |front| && front[i] == shown[k];
        assert list[i] == front[i];
      }
    }
  }

  method ApplyNameFilters(list: seq<Outbound>, without: Option<Matcher>, only: Option<Matcher>)
    returns (kept: seq<Outbound>, hidden: Verdicts)
    ensures kept == Shown(list, without, only) && hidden == HiddenTags(list, without, only)
  {
    kept, hidden := [], map[];
    for i := 0 to |list|
      invariant kept == Shown(list[..i], without, only) && hidden == HiddenTags(list[..i], without, only)
    {
      assert list[..i + 1][..i] == list[..i];
      if Hidden(without, only, list[i].tag) {
        hidden := hidden[list[i].tag := true];
      } else {
        kept := kept + [list[i]];
      }
    }
    assert list[..|list|] == list;
  }

  type Patch = Outbound -> Result<Outbound, string>

  method ApplyPatches(list: seq<Outbound>, patch: Patch) returns (r: Result<seq<Outbound>, string>)
    ensures r.Ok? <==> forall o :: o in list ==> patch(o).Ok?
    ensures r.Ok? ==> |r.value| == |list| && forall k :: 0 <= k < |list| ==> patch(list[k]) == Ok(r.value[k])
  {
    var patched: seq<Outbound> := [];
    for i := 0 to |list|
      invariant |patched| == i && forall k :: 0 <= k < i ==> patch(list[k]) == Ok(patched[k])
    {
      var one := patch(list[i]);
      if one.Err? {
        return Err(one.error);
      }
      patched := patched + [one.value];
    }
    return Ok(patched);
  }

  /** How a list is imported: sound chains are patched, cleaned, and filtered by
      name; with a filter, broken chains are taken out again. */
  ghost predicate Imported(opts: seq<Outbound>, excluded: Verdicts, patch: Patch, rename: string -> string,
                           without: Option<Matcher>, only: Option<Matcher>,
                           patched: seq<Outbound>, named: seq<Outbound>, names: seq<string>, tags: TagMap, list: seq<Outbound>)
  {
    && |patched| == |Kept(opts, excluded)|
    && (forall k :: 0 <= k < |patched| ==> patch(Kept(opts, excluded)[k]) == Ok(patched[k]))
    && Normalized(patched, named, rename, names, tags)
    && list == if without.None? && only.None? then named
               else Kept(Shown(named, without, only), HiddenTags(named, without, only))
  }

  /** A reference to an outbound of the larger list is one to an outbound that stays. */
  ghost predicate ClosedIn(named: seq<Outbound>, list: seq<Outbound>) {
    forall o, s :: o in list && s in Slots(o.options) && s in NamesOf(named) ==> s in NamesOf(list)
  }

  /** What comes out has distinct names, none of them hidden, whatever went in,
      and nothing in it depends on a hidden outbound or one left out. */
  method FilterOutbounds(opts: seq<Outbound>, excluded: Verdicts, patch: Patch, rename: string -> string,
                         without: Option<Matcher>, only: Option<Matcher>)
    returns (r: Result<seq<Outbound>, string>, ghost patched: seq<Outbound>, ghost named: seq<Outbound>,
             ghost names: seq<string>, ghost tags: TagMap)
    ensures r.Ok? <==> forall o :: o in Kept(opts, excluded) ==> patch(o).Ok?
    ensures r.Ok? ==> Imported(opts, excluded, patch, rename, without, only, patched, named, names, tags, r.value)
    ensures r.Ok? ==> P.DistinctNames(r.value) && ClosedIn(named, r.value)
    ensures r.Ok? ==> forall o :: o in r.value ==> !Hidden(without, only, o.tag)
  {
    patched, named, names, tags := [], [], [], map[];
    var sound, _ := FilterInvalidOutboundsWithSkipped(opts, excluded);
    var applied := ApplyPatches(sound, patch);
    if applied.Err? {
      return Err(applied.error), patched, named, names, tags;
    }
    patched := applied.value;
    var list := new Outbound[|applied.value|](i requires 0 <= i < |applied.value| => applied.value[i]);
    assert list[..] == patched;
    names, tags := NormalizeOutboundTags(list, rename);
    named := list[..];
    NormalizedNames(patched, named, rename, names, tags);
    if without.None? && only.None? {
      return Ok(list[..]), patched, named, names, tags;
    }
    var kept, hidden := ApplyNameFilters(list[..], without, only);
    var result, _ := FilterInvalidOutboundsWithSkipped(kept, hidden);
    ShownNames(named, without, only);
    ShownMembers(named, without, only);
    P.KeptNames(kept, hidden);
    KeptMembers(kept, hidden);
    ShownClosed(named, without, only);
    return Ok(result), patched, named, names, tags;
  }

  lemma KeptReference(list: seq<Outbound>, invalid: Verdicts, o: Outbound, s: string)
    requires o in Kept(list, invalid) && s in Slots(o.options) && s != ""
    ensures !Invalid(invalid, s)
    ensures s in NamesOf(list) ==> s in NamesOf(Kept(list, invalid))
  {
    var k :| 0 <= k < |Kept(list, invalid)| && Kept(list, invalid)[k] == o;
    P.KeptAt(list, invalid, k);
    var i := P.KeptIndexes(list, invalid)[k];
    if Invalid(invalid, s) {
      DoomedByItself(list, invalid, i);
    }
    if s in NamesOf(list) {
      ByTagIs(list);
      var j := ByTag(list)[s];
      assert FirstWith(list, s, j);
      EdgeMeans(list, i, j);
      if Doomed(list, invalid, j) {
        DoomedByTarget(list, invalid, i, j);
      }
      KeptHas(list, invalid, j);
    }
  }

  lemma KeptHas(list: seq<Outbound>, invalid: Verdicts, j: nat)
    requires j < |list| && !Doomed(list, invalid, j)
    ensures list[j] in Kept(list, invalid)
  {
    var dooms := Dooms(list, invalid);
    ChosenHas(list, dooms, false, |list|, j);
    ChosenAt(list, dooms, false, |list|);
    var k :| 0 <= k < |Flagged(dooms, false, |list|)| && Flagged(dooms, false, |list|)[k] == j;
    assert Kept(list, invalid)[k] == list[j];
  }

  /** What the second filter keeps refers to nothing that was taken out. */
  lemma ShownClosed(named: seq<Outbound>, without: Option<Matcher>, only: Option<Matcher>)
    ensures ClosedIn(named, Kept(Shown(named, without, only), HiddenTags(named, without, only)))
  {
    var shown, hidden := Shown(named, without, only), HiddenTags(named, without, only);
    ShownMembers(named, without, only);
    forall o, s | o in Kept(shown, hidden) && s in Slots(o.options) && s in NamesOf(named) ensures s in NamesOf(Kept(shown, hidden)) {
      KeptReference(shown, hidden, o, s);
      HiddenMembers(named, without, only, s);
      var k :| 0 <= k < |named| && named[k].tag == s;
      assert named[k] in named;
      assert named[k] in shown;
    }
  }

  lemma KeptMembers(list: seq<Outbound>, invalid: Verdicts)
    ensures forall o :: o in Kept(list, invalid) ==> o in list
  {
    forall o | o in Kept(list, invalid) ensures o in list {
      var k :| 0 <= k < |Kept(list, invalid)| && Kept(list, invalid)[k] == o;
      P.KeptAt(list, invalid, k);
    }
  }

  /* Updating. */

  datatype UpdateError = NotPatched | NoUsable | Circular(tag: string) | NotReplaced(reason: string)

  /** What an update prepares of a list. */
  ghost function Whole(provider: string, list: seq<Outbound>, detour: string): seq<Prepared> {
    P.PrepareAll(provider, list, detour)
  }

  /** The prepared list meets what the transaction demands of it. */
  ghost predicate Ready(provider: string, list: seq<Outbound>, detour: string, prepared: seq<Prepared>) {
    && Topological(prepared) && S.DistinctTags(prepared)
    && S.TagSet(prepared) == S.TagSet(Whole(provider, list, detour))
    && forall e :: e in prepared ==> e in Whole(provider, list, detour) && S.ByTag(Whole(provider, list, detour))[e.tag] == e
  }

  /** A list is prepared in one way, up to order. */
  lemma ReadyIsOne(provider: string, list: seq<Outbound>, detour: string, a: seq<Prepared>, b: seq<Prepared>)
    requires Ready(provider, list, detour, a) && Ready(provider, list, detour, b)
    ensures RR.SameOutbounds(a, b)
  {
    forall e ensures e in a <==> e in b {
      if e in a {
        ReadyToo(provider, list, detour, a, b, e);
      }
      if e in b {
        ReadyToo(provider, list, detour, b, a, e);
      }
    }
  }

  lemma ReadyToo(provider: string, list: seq<Outbound>, detour: string, a: seq<Prepared>, b: seq<Prepared>, e: Prepared)
    requires Ready(provider, list, detour, a) && Ready(provider, list, detour, b) && e in a
    ensures e in b
  {
    RR.TagOf(a, e.tag);
    RR.TagOf(b, e.tag);
    var f :| f in b && f.tag == e.tag;
    assert S.ByTag(Whole(provider, list, detour))[e.tag] == f;
  }

  method PrepareList(provider: string, list: seq<Outbound>, detour: string) returns (r: Result<seq<Prepared>, UpdateError>)
    ensures r.Ok? <==> Acyclic(S.TagGraph(Whole(provider, list, detour)))
    ensures r.Ok? ==> Ready(provider, list, detour, r.value)
    ensures r.Err? ==> r.error.Circular? && OnCycle(S.TagGraph(Whole(provider, list, detour)), r.error.tag)
  {
    var prepared := P.PrepareOutbounds(provider, list, detour);
    if prepared.Err? {
      return Err(Circular(prepared.error));
    }
    OrderedIsTopological(S.ByTag(Whole(provider, list, detour)), prepared.value);
    return Ok(prepared.value);
  }

  /** Of any list, what is imported is prepared and ready for the transaction
      exactly unless a patch fails or the default detour loops. */
  method ImportOutbounds(opts: seq<Outbound>, excluded: Verdicts, patch: Patch, rename: string -> string,
                         without: Option<Matcher>, only: Option<Matcher>, provider: string, detour: string)
    returns (r: Result<seq<Prepared>, UpdateError>, ghost patched: seq<Outbound>, ghost named: seq<Outbound>,
             ghost names: seq<string>, ghost tags: TagMap, ghost list: seq<Outbound>)
    ensures r == Err(NotPatched) <==> exists o :: o in Kept(opts, excluded) && patch(o).Err?
    ensures r != Err(NotPatched) ==>
              Imported(opts, excluded, patch, rename, without, only, patched, named, names, tags, list)
    ensures r.Ok? <==> r != Err(NotPatched) && !DetourLoops(provider, Kept(list, map[]), detour)
    ensures r.Ok? ==> Ready(provider, Kept(list, map[]), detour, r.value)
    ensures r.Err? && r.error != NotPatched ==>
              r.error.Circular? && OnCycle(S.TagGraph(Whole(provider, Kept(list, map[]), detour)), r.error.tag)
  {
    var filtered;
    filtered, patched, named, names, tags := FilterOutbounds(opts, excluded, patch, rename, without, only);
    list := [];
    if filtered.Err? {
      return Err(NotPatched), patched, named, names, tags, list;
    }
    list := filtered.value;
    var sources, _ := FilterInvalidOutboundsWithSkipped(filtered.value, map[]);
    r := PrepareList(provider, sources, detour);
    DetourCycle(provider, list, map[], detour);
  }

  /** The update leaves nothing to publish, of something there was. */
  ghost predicate LeavesNothing(imported: seq<Outbound>, published: nat) {
    Kept(imported, map[]) == [] && (imported != [] || published > 0)
  }

  /** The outbounds of a list can be ordered. */
  ghost predicate Orderable(provider: string, list: seq<Outbound>, detour: string) {
    Acyclic(S.TagGraph(Whole(provider, list, detour)))
  }

  /** An update fails exactly when it leaves nothing to publish, when the current
      or the new outbounds are circular, or when the transaction is refused; a
      failure leaves registry and scope as they were. */
  method UpdateOutbounds(m: OR.Manager, sc: SF.Scopes, x: nat, stages: nat, registered: bool, provider: string,
                         current: seq<Outbound>, imported: seq<Outbound>, published: nat, detour: string,
                         build: Prepared -> Option<M.Handle>, startOk: (M.Handle, nat) -> bool, registers: (M.Handle, nat) -> nat)
    returns (r: Result<Applied, UpdateError>, ghost before: seq<Prepared>, ghost after: seq<Prepared>,
             ghost affected: set<string>, ghost invalid: set<string>, ghost expected: M.TagMap, ghost candidates: seq<M.Handle>)
    requires m.Valid() && SF.Inv(sc.Abs()) && x < |sc.scopes| && stages > 0
    requires FreshBuild(Whole(provider, Kept(imported, map[]), detour), build, StartedIn(sc.scopes, x))
    modifies m, sc
    ensures m.Valid() && SF.Inv(sc.Abs()) && x < |sc.scopes|
    ensures r.Err? ==> m.Abs() == old(m.Abs()) && StartedIn(sc.scopes, x) == StartedIn(old(sc.scopes), x)
    ensures r == Err(NoUsable) <==> LeavesNothing(imported, published)
    ensures r.Err? && r.error.Circular? <==>
              && !LeavesNothing(imported, published)
              && !(Orderable(provider, current, detour) && Orderable(provider, Kept(imported, map[]), detour))
    ensures r.Err? && r.error.Circular? ==>
              var list := if Orderable(provider, current, detour) then Kept(imported, map[]) else current;
              OnCycle(S.TagGraph(Whole(provider, list, detour)), r.error.tag)
    ensures r.Err? ==> r.error.NoUsable? || r.error.Circular? || r.error.NotReplaced?
    ensures CameToSwap(r) ==> Ready(provider, current, detour, before) && Ready(provider, Kept(imported, map[]), detour, after)
    ensures CameToSwap(r) ==> A.LeastCover(before, after, affected)
    ensures CameToSwap(r) ==> (r.Err? <==> Refused(old(m.Abs()), m.endpoints, registered, before, after, build, stages, startOk,
                                                   old(IsDone(sc, x)), affected))
    ensures r.Ok? ==> Done(old(m.Abs()), m.Abs(), m.defaultTag, before, after, build, affected, invalid, expected, candidates, r.value)
    ensures r.Ok? ==> StartedIn(sc.scopes, x) == StartedIn(old(sc.scopes), x) + Ids(candidates)
    ensures r.Ok? ==> Reasons(after, affected, build, invalid, old(m.outboundByTag), m.endpoints, stages, startOk, old(IsDone(sc, x)))
    ensures r.Ok? ==> Decided(old(m.Abs()), m.endpoints, before, after, build, stages, startOk, old(IsDone(sc, x)),
                              affected, invalid, expected, candidates)
    ensures M.KeepsDependencies(old(m.outboundByTag), m.outboundByTag, m.endpoints)
  {
    before, after, affected, invalid, expected, candidates := [], [], {}, {}, map[], [];
    var sources, _ := FilterInvalidOutboundsWithSkipped(imported, map[]);
    if sources == [] && (imported != [] || published > 0) {
      return Err(NoUsable), before, after, affected, invalid, expected, candidates;
    }
    var older := PrepareList(provider, current, detour);
    if older.Err? {
      return Err(older.error), before, after, affected, invalid, expected, candidates;
    }
    var newer := PrepareList(provider, sources, detour);
    if newer.Err? {
      return Err(newer.error), before, after, affected, invalid, expected, candidates;
    }
    before, after := older.value, newer.value;
    var done;
    done, affected, invalid, expected, candidates :=
      ReplaceStartedOutbounds(m, sc, x, stages, registered, older.value, newer.value, build, startOk, registers);
    if done.Err? {
      return Err(NotReplaced(done.error)), before, after, affected, invalid, expected, candidates;
    }
    return Ok(done.value), before, after, affected, invalid, expected, candidates;
  }

  /** Whether an update is refused follows from the current outbounds, the
      imported ones and the environment, however they are ordered. */
  lemma UpdateDecided(registry: M.Registry, endpoints: M.TagMap, registered: bool, provider: string, current: seq<Outbound>,
                      imported: seq<Outbound>, detour: string, build: Prepared -> Option<M.Handle>, stages: nat,
                      startOk: (M.Handle, nat) -> bool, done: bool, started: set<nat>, before: seq<Prepared>, before': seq<Prepared>,
                      after: seq<Prepared>, after': seq<Prepared>, affected: set<string>, affected': set<string>)
    requires Ready(provider, current, detour, before) && Ready(provider, current, detour, before')
    requires Ready(provider, Kept(imported, map[]), detour, after) && Ready(provider, Kept(imported, map[]), detour, after')
    requires FreshBuild(Whole(provider, Kept(imported, map[]), detour), build, started)
    requires A.LeastCover(before, after, affected) && A.LeastCover(before', after', affected')
    ensures affected == affected'
    ensures Refused(registry, endpoints, registered, before, after, build, stages, startOk, done, affected)
            <==> Refused(registry, endpoints, registered, before', after', build, stages, startOk, done, affected')
  {
    ReadyIsOne(provider, current, detour, before, before');
    ReadyIsOne(provider, Kept(imported, map[]), detour, after, after');
    assert FreshBuild(after, build, started);
    RR.RefusalDecided(registry, endpoints, registered, before, before', after, after', build, stages, startOk, done,
                      affected, affected', started);
  }

  /** The update came to the transaction. */
  ghost predicate CameToSwap(r: Result<Applied, UpdateError>) {
    r.Ok? || r.error.NotReplaced?
  }
}
