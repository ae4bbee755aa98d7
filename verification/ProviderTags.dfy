/** Cleaning up the names a provider imports (adapter/provider/adapter.go,
    normalizeOutboundTags). The cosmetic renaming itself, emoji removal and tag
    overrides, is an arbitrary function of the name. */
module ProviderTags {
  import opened Common
  import opened Decimals
  import opened Graphs
  import opened ProviderOptions
  import opened ProviderFilter
  import P = ProviderPrepare

  function Numbered(base: string, n: nat): string {
    base + " #" + Decimal(n)
  }

  function BaseName(rename: string -> string, tag: string, index: nat): (r: string)
    ensures r != ""
  {
    if rename(tag) == "" then "Node #" + Decimal(index + 1) else rename(tag)
  }

  /** The first of base, "base #2", "base #3", ... that is not taken. */
  ghost predicate FirstFree(used: set<string>, base: string, tag: string) {
    && tag !in used
    && (base !in used ==> tag == base)
    && (base in used ==> exists n: nat :: n >= 2 && tag == Numbered(base, n) && TakenBelow(used, base, n))
  }

  ghost predicate TakenBelow(used: set<string>, base: string, n: nat) {
    forall m: nat :: 2 <= m < n ==> Numbered(base, m) in used
  }

  lemma NumberedInjective(base: string, a: nat, b: nat)
    requires Numbered(base, a) == Numbered(base, b)
    ensures a == b
  {
    PrefixInjective(base + " #", Decimal(a), Decimal(b));
    DecimalInjective(a, b);
  }

  /** A base name with all its numbers up to n taken takes n - 2 names, so the
      search for a free number ends. */
  lemma {:induction false} TakenCount(used: set<string>, base: string, n: nat)
    requires n >= 2 && TakenBelow(used, base, n)
    ensures |used| >= n - 2
    decreases n
  {
    if n > 2 {
      var last := Numbered(base, n - 1);
      forall m: nat | 2 <= m < n - 1 ensures Numbered(base, m) in used - {last} {
        if Numbered(base, m) == last {
          NumberedInjective(base, m, n - 1);
        }
      }
      TakenCount(used - {last}, base, n - 1);
    }
  }

  method FreeTag(used: set<string>, base: string) returns (tag: string)
    ensures FirstFree(used, base, tag)
  {
    tag := base;
    if base in used {
      var index := 2;
      while tag in used
        invariant index >= 2
        invariant index == 2 ==> tag == base
        invariant index > 2 ==> tag == Numbered(base, index - 1)
        invariant TakenBelow(used, base, if index == 2 then 2 else index - 1)
        decreases |used| + 3 - index
      {
        assert TakenBelow(used, base, index);
        TakenCount(used, base, index);
        tag := Numbered(base, index);
        index := index + 1;
      }
    }
  }

  function Taken(names: seq<string>): set<string> {
    set n | n in names
  }

  /** The name chosen for outbound i: the first one free after those before it. */
  ghost predicate Picked(before: seq<Outbound>, names: seq<string>, rename: string -> string, i: nat)
    requires i < |names| <= |before|
  {
    FirstFree(Taken(names[..i]), BaseName(rename, before[i].tag, i), names[i])
  }

  ghost predicate AllPicked(before: seq<Outbound>, names: seq<string>, rename: string -> string) {
    |names| <= |before| && forall i :: 0 <= i < |names| ==> Picked(before, names, rename, i)
  }

  /** Where each original name went: to the new tag of its first outbound. */
  ghost predicate NameMap(before: seq<Outbound>, names: seq<string>, tags: TagMap) {
    && |names| <= |before|
    && (forall t :: t in tags ==> exists i :: 0 <= i < |names| && FirstWith(before, t, i) && tags[t] == names[i])
    && (forall i :: 0 <= i < |names| && before[i].tag != "" ==> before[i].tag in tags)
  }

  /** New names, the same kinds, and references renamed by the name map. */
  ghost predicate Normalized(before: seq<Outbound>, after: seq<Outbound>, rename: string -> string,
                             names: seq<string>, tags: TagMap)
  {
    && |before| == |after| == |names|
    && AllPicked(before, names, rename)
    && NameMap(before, names, tags)
    && forall i :: 0 <= i < |before| ==> after[i] == Outbound(names[i], before[i].kind, Rewritten(before[i].options, tags))
  }

  lemma PickedStep(before: seq<Outbound>, names: seq<string>, rename: string -> string, tag: string)
    requires AllPicked(before, names, rename) && |names| < |before|
    requires FirstFree(Taken(names), BaseName(rename, before[|names|].tag, |names|), tag)
    ensures AllPicked(before, names + [tag], rename)
    ensures Taken(names + [tag]) == Taken(names) + {tag}
  {
    var longer := names + [tag];
    forall i | 0 <= i < |longer| ensures Picked(before, longer, rename, i) {
      if i < |names| {
        assert Picked(before, names, rename, i);
        assert longer[..i] == names[..i];
      } else {
        assert longer[..i] == names;
      }
    }
  }

  lemma NameMapStep(before: seq<Outbound>, names: seq<string>, tag: string, tags: TagMap)
    requires NameMap(before, names, tags) && |names| < |before|
    ensures var t := before[|names|].tag;
            NameMap(before, names + [tag], if t != "" && t !in tags then tags[t := tag] else tags)
  {
    var n, t, next := |names|, before[|names|].tag, names + [tag];
    var longer := if t != "" && t !in tags then tags[t := tag] else tags;
    forall u | u in longer ensures exists i :: 0 <= i < n + 1 && FirstWith(before, u, i) && longer[u] == next[i] {
      if u in tags {
        var i :| 0 <= i < n && FirstWith(before, u, i) && tags[u] == names[i];
        assert next[i] == names[i];
      } else {
        assert FirstWith(before, u, n);
      }
    }
  }

  /** Gives every outbound the first free name made from its own, then renames
      the references. */
  method NormalizeOutboundTags(opts: array<Outbound>, rename: string -> string)
    returns (ghost names: seq<string>, ghost tags: TagMap)
    modifies opts
    ensures Normalized(old(opts[..]), opts[..], rename, names, tags)
  {
    ghost var before := opts[..];
    var used: set<string> := {};
    var renamed: TagMap := map[];
    names := [];
    for i := 0 to opts.Length
      invariant |names| == i && used == Taken(names)
      invariant AllPicked(before, names, rename) && NameMap(before, names, renamed)
      invariant forall k :: 0 <= k < i ==> opts[k] == before[k].(tag := names[k])
      invariant forall k :: i <= k < opts.Length ==> opts[k] == before[k]
    {
      var original := opts[i].tag;
      var base := BaseName(rename, original, i);
      var tag := FreeTag(used, base);
      PickedStep(before, names, rename, tag);
      NameMapStep(before, names, tag, renamed);
      opts[i] := opts[i].(tag := tag);
      used := used + {tag};
      names := names + [tag];
      if original != "" && original !in renamed {
        renamed := renamed[original := tag];
      }
    }
    RewriteAll(opts, renamed);
    tags := renamed;
  }

  method RewriteAll(opts: array<Outbound>, tags: TagMap)
    modifies opts
    ensures forall i :: 0 <= i < opts.Length ==>
              opts[i] == old(opts[i]).(options := Rewritten(old(opts[i]).options, tags))
  {
    for i := 0 to opts.Length
      invariant forall k :: 0 <= k < i ==> opts[k] == old(opts[k]).(options := Rewritten(old(opts[k]).options, tags))
      invariant forall k :: i <= k < opts.Length ==> opts[k] == old(opts[k])
    {
      var rewritten, _ := RewriteOutboundReferences(opts[i].options, tags);
      opts[i] := opts[i].(options := rewritten);
    }
  }

  lemma NamesDistinct(before: seq<Outbound>, names: seq<string>, rename: string -> string, i: nat, j: nat)
    requires AllPicked(before, names, rename) && i < j < |names|
    ensures names[i] != names[j]
  {
    assert Picked(before, names, rename, j);
    assert names[..j][i] == names[i];
  }

  lemma NamesNonEmpty(before: seq<Outbound>, names: seq<string>, rename: string -> string, i: nat)
    requires AllPicked(before, names, rename) && i < |names|
    ensures names[i] != ""
  {
    assert Picked(before, names, rename, i);
  }

  /** No two outbounds share a tag afterwards, and none is unnamed. */
  lemma NormalizedNames(before: seq<Outbound>, after: seq<Outbound>, rename: string -> string,
                        names: seq<string>, tags: TagMap)
    requires Normalized(before, after, rename, names, tags)
    ensures P.DistinctNames(after)
  {
    forall i | 0 <= i < |after| ensures after[i].tag != "" {
      NamesNonEmpty(before, names, rename, i);
    }
    forall i, j | 0 <= i < j < |after| ensures after[i].tag != after[j].tag {
      NamesDistinct(before, names, rename, i, j);
    }
  }

  /** The name map sends a name to the new tag of the outbound it stood for. */
  lemma NameMapFollows(before: seq<Outbound>, names: seq<string>, tags: TagMap, name: string, j: nat)
    requires NameMap(before, names, tags) && |names| == |before| && FirstWith(before, name, j)
    ensures Internal(tags, name) && tags[name] == names[j]
  {
    var i :| 0 <= i < |names| && FirstWith(before, name, i) && tags[name] == names[i];
    assert i == j;
  }

  /** A reference that named no imported outbound. */
  ghost predicate External(before: seq<Outbound>, reference: string) {
    forall k :: 0 <= k < |before| ==> before[k].tag != reference
  }

  /** An external reference is captured when some outbound is given that very name. */
  ghost predicate Captured(before: seq<Outbound>, after: seq<Outbound>, i: nat, j: nat)
    requires i < |before| && j < |after|
  {
    exists s :: s in Slots(before[i].options) && s != "" && External(before, s) && s == after[j].tag
  }

  lemma ExternalStays(before: seq<Outbound>, names: seq<string>, tags: TagMap, reference: string)
    requires NameMap(before, names, tags) && External(before, reference)
    ensures Renamed(tags, reference) == reference
  {}

  lemma FirstOrExternal(before: seq<Outbound>, name: string)
    requires name != ""
    ensures External(before, name) || exists j: nat :: FirstWith(before, name, j)
  {
    if !External(before, name) {
      var k :| 0 <= k < |before| && before[k].tag == name;
      var byTag := ByTag(before);
      ByTagIs(before);
      assert FirstWith(before, name, byTag[name]);
    }
  }

  lemma RewrittenSlots(o: Options, tags: TagMap, slot: string)
    ensures slot in Slots(Rewritten(o, tags)) <==> exists s :: s in Slots(o) && Renamed(tags, s) == slot
  {
    if slot in Slots(Rewritten(o, tags)) {
      if o.dialer.Some? && Renamed(tags, o.dialer.value) == slot {
        assert o.dialer.value in Slots(o);
      } else {
        assert o.download.value in Slots(o);
      }
    }
  }

  /** Every internal reference still names the same outbound. */
  lemma ReferencesFollow(before: seq<Outbound>, after: seq<Outbound>, rename: string -> string,
                         names: seq<string>, tags: TagMap, i: nat, j: nat)
    requires Normalized(before, after, rename, names, tags) && i < |before|
    requires Edge(DetourGraph(before), i, j)
    ensures Edge(DetourGraph(after), i, j)
  {
    EdgeMeans(before, i, j);
    var s :| s in Slots(before[i].options) && FirstWith(before, s, j);
    NameMapFollows(before, names, tags, s, j);
    RewrittenSlots(before[i].options, tags, names[j]);
    NormalizedNames(before, after, rename, names, tags);
    P.DistinctNamesFirst(after, j);
    EdgeMeans(after, i, j);
  }

  /** The references afterwards are the old ones and the captured ones. */
  lemma ReferencesAfter(before: seq<Outbound>, after: seq<Outbound>, rename: string -> string,
                        names: seq<string>, tags: TagMap, i: nat, j: nat)
    requires Normalized(before, after, rename, names, tags) && i < |before| && j < |before|
    ensures Edge(DetourGraph(after), i, j) <==> Edge(DetourGraph(before), i, j) || Captured(before, after, i, j)
  {
    NormalizedNames(before, after, rename, names, tags);
    P.DistinctNamesFirst(after, j);
    EdgeMeans(after, i, j);
    if Edge(DetourGraph(before), i, j) {
      ReferencesFollow(before, after, rename, names, tags, i, j);
    }
    if Captured(before, after, i, j) {
      var s :| s in Slots(before[i].options) && s != "" && External(before, s) && s == after[j].tag;
      ExternalStays(before, names, tags, s);
      RewrittenSlots(before[i].options, tags, s);
    }
    if Edge(DetourGraph(after), i, j) {
      var t :| t in Slots(after[i].options) && FirstWith(after, t, j);
      RewrittenSlots(before[i].options, tags, t);
      var s :| s in Slots(before[i].options) && Renamed(tags, s) == t;
      ReferenceCameFrom(before, after, rename, names, tags, i, j, s);
    }
  }

  lemma ReferenceCameFrom(before: seq<Outbound>, after: seq<Outbound>, rename: string -> string,
                          names: seq<string>, tags: TagMap, i: nat, j: nat, s: string)
    requires Normalized(before, after, rename, names, tags) && i < |before| && j < |before|
    requires s in Slots(before[i].options) && Renamed(tags, s) == names[j] != ""
    ensures Edge(DetourGraph(before), i, j) || Captured(before, after, i, j)
  {
    if s != "" {
      FirstOrExternal(before, s);
      if External(before, s) {
        ExternalStays(before, names, tags, s);
      } else {
        var k: nat :| FirstWith(before, s, k);
        NameMapFollows(before, names, tags, s, k);
        SameName(before, names, rename, k, j);
        EdgeMeans(before, i, j);
      }
    }
  }

  lemma SameName(before: seq<Outbound>, names: seq<string>, rename: string -> string, i: nat, j: nat)
    requires AllPicked(before, names, rename) && i < |names| && j < |names| && names[i] == names[j]
    ensures i == j
  {
    if i < j {
      NamesDistinct(before, names, rename, i, j);
    } else if j < i {
      NamesDistinct(before, names, rename, j, i);
    }
  }

  /** Renaming can capture: an outbound "a" that dials through the outside
      outbound "b" is itself renamed to "b", and then dials through itself. */
  lemma CaptureHappens(rename: string -> string)
    requires rename("a") == "b"
    ensures var before := [Outbound("a", "", Options(Some("b"), None, ""))];
            var after := [Outbound("b", "", Options(Some("b"), None, ""))];
            && Normalized(before, after, rename, ["b"], map["a" := "b"])
            && !Edge(DetourGraph(before), 0, 0)
            && OnCycle(DetourGraph(after), 0)
  {
    var before := [Outbound("a", "", Options(Some("b"), None, ""))];
    var after := [Outbound("b", "", Options(Some("b"), None, ""))];
    var names, tags := ["b"], map["a" := "b"];
    assert Picked(before, names, rename, 0);
    assert FirstWith(before, "a", 0);
    assert Normalized(before, after, rename, names, tags);
    EdgeMeans(before, 0, 0);
    assert "b" in Slots(before[0].options);
    assert Captured(before, after, 0, 0);
    ReferencesAfter(before, after, rename, names, tags, 0, 0);
    Single(DetourGraph(after), 0);
    CycleByEdge(DetourGraph(after), 0, 0);
  }
}
