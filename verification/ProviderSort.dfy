/** The topological order in which provider outbounds are created
    (adapter/provider/graph.go, sortOutbounds). */
module ProviderSort {
  import opened Common
  import opened Graphs
  import opened ProviderOptions

  datatype Prepared = Prepared(source: Outbound, runtime: Outbound, tag: string, dependencies: seq<string>, position: nat)

  /** The outbound a tag stands for: the last one that carries it. */
  function ByTag(list: seq<Prepared>): (r: map<string, Prepared>)
    ensures forall t :: t in r ==> r[t] in list && r[t].tag == t
    ensures forall e :: e in list ==> e.tag in r
  {
    if list == [] then
      map[]
    else
      var last := |list| - 1;
      assert list == list[..last] + [list[last]];
      ByTag(list[..last])[list[last].tag := list[last]]
  }

  function Within(tags: seq<string>, known: set<string>): (r: seq<string>)
    ensures forall t :: t in r <==> t in tags && t in known
  {
    if tags == [] then
      []
    else
      assert tags == [tags[0]] + tags[1..];
      (if tags[0] in known then [tags[0]] else []) + Within(tags[1..], known)
  }

  function GraphOf(byTag: map<string, Prepared>): Graph<string> {
    map t | t in byTag :: Within(byTag[t].dependencies, byTag.Keys)
  }

  /** The dependencies among the outbounds of the list. */
  function TagGraph(list: seq<Prepared>): Graph<string> {
    GraphOf(ByTag(list))
  }

  function TagSet(list: seq<Prepared>): (r: set<string>)
    ensures forall k :: 0 <= k < |list| ==> list[k].tag in r
  {
    set k | 0 <= k < |list| :: list[k].tag
  }

  ghost predicate DistinctTags(list: seq<Prepared>) {
    forall i, j :: 0 <= i < j < |list| ==> list[i].tag != list[j].tag
  }

  /** Every dependency that is an outbound of the list is placed before. */
  ghost predicate DependenciesBefore(byTag: map<string, Prepared>, result: seq<Prepared>, k: nat)
    requires k < |result|
  {
    forall d :: d in result[k].dependencies && d in byTag ==> d in TagSet(result[..k])
  }

  /** A partial order of creation: outbounds of the list, each tag once,
      dependencies first. */
  ghost predicate Ordered(byTag: map<string, Prepared>, result: seq<Prepared>) {
    && DistinctTags(result)
    && (forall k :: 0 <= k < |result| ==> result[k].tag in byTag && byTag[result[k].tag] == result[k])
    && (forall k :: 0 <= k < |result| ==> DependenciesBefore(byTag, result, k))
  }

  lemma TagSetStep(list: seq<Prepared>, e: Prepared)
    ensures TagSet(list + [e]) == TagSet(list) + {e.tag}
  {
    assert (list + [e])[|list|] == e;
    forall t | t in TagSet(list) + {e.tag} ensures t in TagSet(list + [e]) {
      if t in TagSet(list) {
        var k :| 0 <= k < |list| && list[k].tag == t;
        assert (list + [e])[k].tag == t;
      }
    }
  }

  lemma OrderedStep(byTag: map<string, Prepared>, result: seq<Prepared>, e: Prepared)
    requires Ordered(byTag, result)
    requires e.tag in byTag && byTag[e.tag] == e && e.tag !in TagSet(result)
    requires forall d :: d in e.dependencies && d in byTag ==> d in TagSet(result)
    ensures Ordered(byTag, result + [e])
  {
    var longer := result + [e];
    forall k | 0 <= k < |longer| ensures DependenciesBefore(byTag, longer, k) {
      if k < |result| {
        assert DependenciesBefore(byTag, result, k);
        assert longer[..k] == result[..k];
      } else {
        assert longer[..k] == result;
      }
    }
    forall i, j | 0 <= i < j < |longer| ensures longer[i].tag != longer[j].tag {
      if j == |result| {
        assert result[i].tag in TagSet(result);
      }
    }
  }

  function TagList(list: seq<Prepared>): (r: seq<string>)
    ensures |r| == |list| && forall k :: 0 <= k < |r| ==> r[k] == list[k].tag
  {
    seq(|list|, k requires 0 <= k < |list| => list[k].tag)
  }

  function Position(result: seq<Prepared>, tag: string): (r: nat)
    ensures tag in TagSet(result) ==> r < |result| && result[r].tag == tag
  {
    assert tag in TagSet(result) ==> tag in TagList(result) by {
      if tag in TagSet(result) {
        var k :| 0 <= k < |result| && result[k].tag == tag;
        assert TagList(result)[k] == tag;
      }
    }
    IndexOf(TagList(result), tag)
  }

  /** A complete order of creation rules out cycles. */
  lemma OrderedIsAcyclic(byTag: map<string, Prepared>, result: seq<Prepared>)
    requires Ordered(byTag, result) && TagSet(result) == byTag.Keys
    ensures Acyclic(GraphOf(byTag))
  {
    var g := GraphOf(byTag);
    var rank := t => Position(result, t) as int;
    forall u, v | Edge(g, u, v) ensures rank(v) < rank(u) {
      var k := Position(result, u);
      assert result[k] == byTag[u] && v in result[k].dependencies;
      assert DependenciesBefore(byTag, result, k);
      assert v in TagSet(result[..k]);
      var m :| 0 <= m < k && result[..k][m].tag == v;
      assert result[m].tag == v && result[Position(result, v)].tag == v;
      assert Position(result, v) == m;
    }
    RankedIsAcyclic(g, rank);
  }

  datatype Mark = Open | Done

  ghost predicate KeyedByTag(byTag: map<string, Prepared>) {
    forall t :: t in byTag ==> byTag[t].tag == t
  }

  /** Done is placed; open is on the stack of open calls. */
  ghost predicate MarksOk(keys: set<string>, state: map<string, Mark>, placed: set<string>, stack: seq<string>) {
    && state.Keys <= keys
    && placed <= state.Keys
    && (forall t :: t in state ==> (state[t] == Done <==> t in placed))
    && (forall t :: t in state && state[t] == Open ==> t in stack)
  }

  lemma MarkOpen(keys: set<string>, state: map<string, Mark>, placed: set<string>, stack: seq<string>, tag: string)
    requires MarksOk(keys, state, placed, stack) && tag in keys && tag !in state
    ensures MarksOk(keys, state[tag := Open], placed, stack + [tag])
  {}

  lemma MarkDone(keys: set<string>, state: map<string, Mark>, placed: set<string>, stack: seq<string>, tag: string)
    requires MarksOk(keys, state, placed, stack + [tag]) && tag in state
    ensures MarksOk(keys, state[tag := Done], placed + {tag}, stack)
  {}

  /** What was seen keeps its mark, and everything newly seen is done. */
  ghost predicate OnlyDone(before: map<string, Mark>, after: map<string, Mark>) {
    forall t :: t in after ==> after[t] == if t in before then before[t] else Done
  }

  lemma OnlyDoneThen(a: map<string, Mark>, b: map<string, Mark>, c: map<string, Mark>)
    requires OnlyDone(a, b) && OnlyDone(b, c) && a.Keys <= b.Keys <= c.Keys
    ensures OnlyDone(a, c)
  {}

  class Sorter {
    const byTag: map<string, Prepared>
    var state: map<string, Mark>
    var result: seq<Prepared>

    ghost predicate Valid(stack: seq<string>)
      reads this
    {
      && Ordered(byTag, result)
      && KeyedByTag(byTag)
      && MarksOk(byTag.Keys, state, TagSet(result), stack)
    }

    ghost predicate Asks(stack: seq<string>, tag: string)
      reads this
    {
      tag in byTag && Path(GraphOf(byTag), stack + [tag])
    }

    lemma NextAsk(stack: seq<string>, tag: string, next: string)
      requires Asks(stack, tag) && Edge(GraphOf(byTag), tag, next)
      ensures Asks(stack + [tag], next)
    {
      var p, q := stack + [tag], stack + [tag] + [next];
      forall i | 0 <= i < |q| - 1 ensures Edge(GraphOf(byTag), q[i], q[i + 1]) {
        if i < |p| - 1 {
          assert Edge(GraphOf(byTag), p[i], p[i + 1]);
        }
      }
    }

    lemma OpenIsCycle(stack: seq<string>, tag: string)
      requires Asks(stack, tag) && tag in stack
      ensures OnCycle(GraphOf(byTag), tag)
    {
      var k :| 0 <= k < |stack| && stack[k] == tag;
      var p := stack + [tag];
      SubPath(GraphOf(byTag), p, k, |stack|);
      assert Connects(GraphOf(byTag), p[k..|stack| + 1], tag, tag);
    }

    /** Places the tag after everything it depends on, or names a tag that
        really lies on a cycle. */
    method Visit(tag: string, ghost stack: seq<string>) returns (err: Option<string>)
      requires Valid(stack) && Asks(stack, tag)
      modifies this
      ensures err.None? ==> Valid(stack) && tag in TagSet(result) && TagSet(old(result)) <= TagSet(result)
      ensures old(state.Keys) <= state.Keys
      ensures err.None? ==> OnlyDone(old(state), state)
      ensures err.Some? ==> OnCycle(GraphOf(byTag), err.value)
      decreases byTag.Keys - state.Keys, 0
    {
      if tag in state {
        if state[tag] == Open {
          OpenIsCycle(stack, tag);
          return Some(tag);
        }
        return None;
      }
      MarkOpen(byTag.Keys, state, TagSet(result), stack, tag);
      state := state[tag := Open];
      err := VisitDependencies(tag, stack);
      if err.Some? {
        return;
      }
      OrderedStep(byTag, result, byTag[tag]);
      TagSetStep(result, byTag[tag]);
      MarkDone(byTag.Keys, state, TagSet(result), stack, tag);
      state := state[tag := Done];
      result := result + [byTag[tag]];
    }

    method VisitDependencies(tag: string, ghost stack: seq<string>) returns (err: Option<string>)
      requires Asks(stack, tag) && Valid(stack + [tag]) && tag in state && state[tag] == Open
      modifies this
      ensures err.None? ==> Valid(stack + [tag]) && TagSet(old(result)) <= TagSet(result)
      ensures err.None? ==> forall d :: d in byTag[tag].dependencies && d in byTag ==> d in TagSet(result)
      ensures old(state.Keys) <= state.Keys
      ensures err.None? ==> OnlyDone(old(state), state)
      ensures err.Some? ==> OnCycle(GraphOf(byTag), err.value)
      decreases byTag.Keys - state.Keys, 1
    {
      var dependencies := byTag[tag].dependencies;
      for i := 0 to |dependencies|
        invariant Valid(stack + [tag]) && old(state.Keys) <= state.Keys && TagSet(old(result)) <= TagSet(result)
        invariant OnlyDone(old(state), state)
        invariant forall m :: 0 <= m < i && dependencies[m] in byTag ==> dependencies[m] in TagSet(result)
      {
        if dependencies[i] in byTag {
          NextAsk(stack, tag, dependencies[i]);
          ghost var seen := state;
          err := Visit(dependencies[i], stack + [tag]);
          if err.Some? {
            return;
          }
          OnlyDoneThen(old(state), seen, state);
        }
      }
      return None;
    }

    method VisitAll(list: seq<Prepared>) returns (err: Option<string>)
      requires Valid([]) && TagSet(list) == byTag.Keys
      modifies this
      ensures err.None? ==> Valid([]) && TagSet(result) == byTag.Keys
      ensures err.Some? ==> OnCycle(GraphOf(byTag), err.value)
    {
      for i := 0 to |list|
        invariant Valid([])
        invariant forall k :: 0 <= k < i ==> list[k].tag in TagSet(result)
      {
        assert [] + [list[i].tag] == [list[i].tag];
        Single(GraphOf(byTag), list[i].tag);
        err := Visit(list[i].tag, []);
        if err.Some? {
          return;
        }
      }
      err := None;
      forall t | t in byTag.Keys ensures t in TagSet(result) {
        var k :| 0 <= k < |list| && list[k].tag == t;
      }
    }

    constructor (byTag: map<string, Prepared>)
      requires KeyedByTag(byTag)
      ensures Valid([]) && this.byTag == byTag && result == [] && state == map[]
    {
      this.byTag, state, result := byTag, map[], [];
    }
  }

  lemma ByTagStep(list: seq<Prepared>, i: nat)
    requires i < |list|
    ensures ByTag(list[..i + 1]) == ByTag(list[..i])[list[i].tag := list[i]]
  {
    assert list[..i + 1][..i] == list[..i];
  }

  method IndexByTag(list: seq<Prepared>) returns (byTag: map<string, Prepared>)
    ensures byTag == ByTag(list)
  {
    byTag := map[];
    for i := 0 to |list|
      invariant byTag == ByTag(list[..i])
    {
      ByTagStep(list, i);
      byTag := byTag[list[i].tag := list[i]];
    }
    assert list[..|list|] == list;
  }

  lemma TagsOfByTag(list: seq<Prepared>)
    ensures TagSet(list) == ByTag(list).Keys
  {
    var byTag := ByTag(list);
    forall t | t in byTag ensures t in TagSet(list) {
      var k :| 0 <= k < |list| && list[k] == byTag[t];
      assert list[k].tag == t;
    }
    forall t | t in TagSet(list) ensures t in byTag {
      var k :| 0 <= k < |list| && list[k].tag == t;
      assert list[k] in list;
    }
  }

  /** Fails exactly when the dependencies have a cycle, naming a tag on one;
      otherwise gives each tag of the list once, dependencies first. */
  method SortOutbounds(list: seq<Prepared>) returns (r: Result<seq<Prepared>, string>)
    ensures r.Ok? <==> Acyclic(TagGraph(list))
    ensures r.Err? ==> OnCycle(TagGraph(list), r.error)
    ensures r.Ok? ==> Ordered(ByTag(list), r.value) && TagSet(r.value) == TagSet(list)
  {
    var byTag := IndexByTag(list);
    TagsOfByTag(list);
    var sorter := new Sorter(byTag);
    var err := sorter.VisitAll(list);
    if err.Some? {
      return Err(err.value);
    }
    OrderedIsAcyclic(byTag, sorter.result);
    return Ok(sorter.result);
  }

  /** With distinct tags the order is a rearrangement of the whole list. */
  lemma OrderedIsPermutation(list: seq<Prepared>, result: seq<Prepared>)
    requires DistinctTags(list) && Ordered(ByTag(list), result) && TagSet(result) == TagSet(list)
    ensures multiset(result) == multiset(list)
  {
    forall e ensures multiset(result)[e] == multiset(list)[e] {
      DistinctCount(list, e);
      DistinctCount(result, e);
      if e in list {
        assert e.tag in TagSet(result);
        var k :| 0 <= k < |result| && result[k].tag == e.tag;
        var other := ByTag(list)[e.tag];
        assert result[k] == other && other in list && other.tag == e.tag;
        var a :| 0 <= a < |list| && list[a] == e;
        var b :| 0 <= b < |list| && list[b] == other;
        assert a == b;
        assert e in result;
      }
    }
  }

  lemma {:induction false} DistinctCount(list: seq<Prepared>, e: Prepared)
    requires DistinctTags(list)
    ensures multiset(list)[e] == if e in list then 1 else 0
  {
    if list != [] {
      var last := |list| - 1;
      assert list == list[..last] + [list[last]];
      DistinctCount(list[..last], e);
      if e in list[..last] {
        var k :| 0 <= k < last && list[k] == e;
        assert list[last].tag != e.tag;
      }
    }
  }
}
