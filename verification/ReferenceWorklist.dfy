/** The references that keep an outbound or a DNS transport in use, and what is
    told to those whose idle connections depend on it (route/reference.go,
    update and applyKeepIdle). */
module ReferenceWorklist {
  import opened Common
  import opened Graphs
  import opened ReferenceRules
  import opened ReferenceScan

  ghost predicate FromRoot(g: Graph<string>, roots: seq<string>, t: string) {
    exists r :: r in roots && Reaches(g, r, t)
  }

  /** Reached from a root through registered entries, and registered itself. */
  ghost predicate Reachable(g: Graph<string>, roots: seq<string>, t: string) {
    t in g && FromRoot(g, roots, t)
  }

  /** Everything seen comes from a root. */
  ghost predicate FromRoots(g: Graph<string>, roots: seq<string>, marked: set<string>, queue: seq<string>) {
    && (forall t :: t in marked ==> Reachable(g, roots, t))
    && (forall q :: q in queue ==> FromRoot(g, roots, q))
  }

  /** Nothing that must be looked at is forgotten. */
  ghost predicate Covered(g: Graph<string>, roots: seq<string>, marked: set<string>, queue: seq<string>) {
    && (forall r :: r in roots && r in g ==> r in marked || r in queue)
    && (forall u, v :: u in marked && Edge(g, u, v) && v in g ==> v in marked || v in queue)
  }

  lemma Dequeue(g: Graph<string>, roots: seq<string>, marked: set<string>, queue: seq<string>)
    requires queue != [] && FromRoots(g, roots, marked, queue) && Covered(g, roots, marked, queue)
    requires queue[0] in marked || queue[0] !in g
    ensures FromRoots(g, roots, marked, queue[1..]) && Covered(g, roots, marked, queue[1..])
  {
    assert queue == [queue[0]] + queue[1..];
  }

  lemma MarkFrom(g: Graph<string>, roots: seq<string>, marked: set<string>, queue: seq<string>)
    requires queue != [] && FromRoots(g, roots, marked, queue) && queue[0] in g
    ensures FromRoots(g, roots, marked + {queue[0]}, queue[1..] + g[queue[0]])
  {
    var t := queue[0];
    assert t in queue && FromRoot(g, roots, t);
    var r :| r in roots && Reaches(g, r, t);
    forall q | q in queue[1..] + g[t] ensures FromRoot(g, roots, q) {
      if q in g[t] {
        EdgeReaches(g, t, q);
        ReachesTransitive(g, r, t, q);
      } else {
        assert q in queue;
      }
    }
  }

  lemma MarkCovers(g: Graph<string>, roots: seq<string>, marked: set<string>, queue: seq<string>)
    requires queue != [] && Covered(g, roots, marked, queue) && queue[0] in g
    ensures Covered(g, roots, marked + {queue[0]}, queue[1..] + g[queue[0]])
  {
    assert queue == [queue[0]] + queue[1..];
  }

  /** A path of registered entries from a root is marked all along. */
  lemma {:induction false} PathMarked(g: Graph<string>, marked: set<string>, p: seq<string>, x: string, t: string)
    requires forall u, v :: u in marked && Edge(g, u, v) && v in g ==> v in marked
    requires Connects(g, p, x, t) && t in g && x in marked
    ensures t in marked
    decreases |p|
  {
    if |p| >= 2 {
      FirstEdge(g, p, x, t);
      if |p| >= 3 {
        assert Edge(g, p[1], p[2]);
      } else {
        assert p[1] == t;
      }
      PathMarked(g, marked, p[1..], p[1], t);
    }
  }

  lemma FirstRegistered(g: Graph<string>, p: seq<string>, x: string, t: string)
    requires Connects(g, p, x, t) && t in g
    ensures x in g
  {
    if |p| >= 2 {
      FirstEdge(g, p, x, t);
    }
  }

  lemma AllMarked(g: Graph<string>, roots: seq<string>, marked: set<string>, t: string)
    requires Covered(g, roots, marked, []) && Reachable(g, roots, t)
    ensures t in marked
  {
    var r :| r in roots && Reaches(g, r, t);
    var p :| Connects(g, p, r, t);
    FirstRegistered(g, p, r, t);
    PathMarked(g, marked, p, r, t);
  }

  lemma RootsReached(g: Graph<string>, roots: seq<string>)
    ensures FromRoots(g, roots, {}, roots)
  {
    forall q | q in roots ensures FromRoot(g, roots, q) {
      Single(g, q);
    }
  }

  /** Marks exactly the reachable entries. */
  method Worklist(g: Graph<string>, roots: seq<string>) returns (marked: set<string>)
    requires "" !in g
    ensures forall t :: t in marked <==> Reachable(g, roots, t)
  {
    var queue := roots;
    marked := {};
    RootsReached(g, roots);
    while queue != []
      invariant FromRoots(g, roots, marked, queue) && Covered(g, roots, marked, queue)
      invariant marked <= g.Keys
      decreases g.Keys - marked, |queue|
    {
      var tag := queue[0];
      if tag == "" || tag in marked || tag !in g {
        Dequeue(g, roots, marked, queue);
        queue := queue[1..];
      } else {
        MarkFrom(g, roots, marked, queue);
        MarkCovers(g, roots, marked, queue);
        queue, marked := queue[1..] + g[tag], marked + {tag};
      }
    }
    forall t | Reachable(g, roots, t) ensures t in marked {
      AllMarked(g, roots, marked, t);
    }
  }

  /** The outbounds named by the transports in use join the outbound roots. */
  ghost predicate WithReferences(refs: Graph<string>, marked: set<string>, start: seq<string>, list: seq<string>) {
    forall o :: o in list <==> o in start || exists t :: t in marked && Edge(refs, t, o)
  }

  /** The transport loop: marks like Worklist and passes on outbound references. */
  method TransportWorklist(g: Graph<string>, refs: Graph<string>, roots: seq<string>, outbounds0: seq<string>)
    returns (marked: set<string>, outbounds: seq<string>)
    requires "" !in g
    ensures forall t :: t in marked <==> Reachable(g, roots, t)
    ensures WithReferences(refs, marked, outbounds0, outbounds)
  {
    var queue := roots;
    marked, outbounds := {}, outbounds0;
    RootsReached(g, roots);
    while queue != []
      invariant FromRoots(g, roots, marked, queue) && Covered(g, roots, marked, queue)
      invariant marked <= g.Keys && WithReferences(refs, marked, outbounds0, outbounds)
      decreases g.Keys - marked, |queue|
    {
      var tag := queue[0];
      if tag == "" || tag in marked || tag !in g {
        Dequeue(g, roots, marked, queue);
        queue := queue[1..];
      } else {
        MarkFrom(g, roots, marked, queue);
        MarkCovers(g, roots, marked, queue);
        ReferencesMore(refs, marked, outbounds0, outbounds, tag);
        if tag in refs {
          outbounds := outbounds + refs[tag];
        }
        queue, marked := queue[1..] + g[tag], marked + {tag};
      }
    }
    forall t | Reachable(g, roots, t) ensures t in marked {
      AllMarked(g, roots, marked, t);
    }
  }

  lemma ReferencesMore(refs: Graph<string>, marked: set<string>, start: seq<string>, list: seq<string>, tag: string)
    requires WithReferences(refs, marked, start, list)
    ensures WithReferences(refs, marked + {tag}, start, list + (if tag in refs then refs[tag] else []))
  {
    var longer := list + (if tag in refs then refs[tag] else []);
    forall o ensures o in longer <==> o in start || exists t :: t in marked + {tag} && Edge(refs, t, o) {
      if t :| t in marked + {tag} && Edge(refs, t, o) {
        if t in marked {
          assert o in list;
        }
      }
      if o in list && o !in start {
        var t :| t in marked && Edge(refs, t, o);
        assert t in marked + {tag};
      }
      if tag in refs && o in refs[tag] {
        assert Edge(refs, tag, o) && tag in marked + {tag};
      }
    }
  }

  /* The whole update. */

  /** A component whose idle connections are kept only while it is referenced. */
  datatype Keeper = Keeper(id: nat, tag: string)

  /** What an update reads from the other managers. */
  datatype World = World(
    outbounds: Graph<string>, transports: Graph<string>, transportRefs: Graph<string>,
    default: Option<string>, outboundRoots: seq<string>, transportRoots: seq<string>,
    outboundKeepers: seq<Keeper>, transportKeepers: seq<Keeper>)

  ghost predicate DistinctKeepers(keepers: seq<Keeper>) {
    forall i, j :: 0 <= i < j < |keepers| ==> keepers[i].id != keepers[j].id
  }

  ghost predicate WellFormed(w: World) {
    && "" !in w.outbounds && "" !in w.transports
    && DistinctKeepers(w.outboundKeepers) && DistinctKeepers(w.transportKeepers)
    && forall k, l :: k in w.outboundKeepers && l in w.transportKeepers ==> k.id != l.id
  }

  /** Every outbound a connection can be sent to in this mode, or the default if
      one can fall through, is a root. */
  ghost predicate RootsCover(rules: seq<Rule>, mode: string, fold: Fold, w: World, roots: seq<string>) {
    && (forall t :: Collects(rules, mode, fold, t, |rules|) ==> t in roots)
    && (!Shadowed(rules, mode, fold) && w.default.Some? ==> w.default.value in roots)
    && (forall t :: t in w.outboundRoots ==> t in roots)
  }

  /** Nothing else is a root: a collected reference, the default of a list that
      can fall through, a given root, or named by a transport in use. */
  ghost predicate RootsOnly(rules: seq<Rule>, mode: string, fold: Fold, w: World, used: set<string>, roots: seq<string>) {
    forall t :: t in roots ==>
      || Collects(rules, mode, fold, t, |rules|)
      || (!Shadowed(rules, mode, fold) && w.default == Some(t))
      || t in w.outboundRoots
      || exists u :: u in used && Edge(w.transportRefs, u, t)
  }

  class ReferenceManager {
    const rules: seq<Rule>
    const fold: Fold
    var keepIdle: map<nat, bool>
    /** The last value each keeper was told. */
    var told: map<nat, bool>

    /** What is remembered is what was last told. */
    ghost predicate Valid()
      reads this
    {
      forall id :: id in keepIdle ==> id in told && told[id] == keepIdle[id]
    }

    constructor (rules: seq<Rule>, fold: Fold)
      ensures Valid() && this.rules == rules && this.fold == fold
    {
      this.rules, this.fold, keepIdle, told := rules, fold, map[], map[];
    }

    /** While an update runs: those handled were told the new value, the others
        still what is remembered. */
    ghost predicate Telling(next: map<nat, bool>)
      reads this
    {
      && (forall id :: id in next ==> id in told && told[id] == next[id])
      && (forall id :: id in keepIdle && id !in next ==> id in told && told[id] == keepIdle[id])
    }

    method ApplyKeepIdle(next: map<nat, bool>, id: nat, keep: bool) returns (r: map<nat, bool>)
      requires Telling(next) && id !in next
      modifies `told
      ensures Telling(r) && r == next[id := keep]
    {
      r := next[id := keep];
      if id in keepIdle && keepIdle[id] == keep {
        return;
      }
      told := told[id := keep];
    }

    method TellAll(start: map<nat, bool>, keepers: seq<Keeper>, referenced: set<string>) returns (next: map<nat, bool>)
      requires Telling(start)
      requires forall i :: 0 <= i < |keepers| ==> keepers[i].id !in start
      requires DistinctKeepers(keepers)
      modifies `told
      ensures Telling(next)
      ensures next == Decided(start, keepers, referenced)
    {
      next := start;
      for i := 0 to |keepers|
        invariant Telling(next)
        invariant next == Decided(start, keepers[..i], referenced)
        invariant forall k :: i <= k < |keepers| ==> keepers[k].id !in next
      {
        assert keepers[..i + 1][..i] == keepers[..i];
        next := ApplyKeepIdle(next, keepers[i].id, keepers[i].tag in referenced);
      }
      assert keepers[..|keepers|] == keepers;
    }

    /** One update: marks exactly what is reachable from the roots, and
        afterwards every keeper present was last told its current status. */
    method Update(mode: string, w: World)
      returns (usedOutbounds: set<string>, usedTransports: set<string>, ghost outboundRoots: seq<string>, ghost transportRoots: seq<string>)
      requires Valid() && WellFormed(w)
      modifies `told, `keepIdle
      ensures Valid()
      ensures RootsCover(rules, mode, fold, w, outboundRoots)
      ensures RootsOnly(rules, mode, fold, w, usedTransports, outboundRoots)
      ensures forall t :: t in transportRoots <==> t in w.transportRoots || CollectsServer(rules, mode, fold, t, |rules|)
      ensures forall t :: t in usedTransports <==> Reachable(w.transports, transportRoots, t)
      ensures forall t :: t in usedOutbounds <==> Reachable(w.outbounds, outboundRoots, t)
      ensures forall k :: k in w.outboundKeepers ==> k.id in told && told[k.id] == (k.tag in usedOutbounds)
      ensures forall k :: k in w.transportKeepers ==> k.id in told && told[k.id] == (k.tag in usedTransports)
    {
      var outbounds, transports, shadowed := CollectRuleReferences(rules, mode, fold, w.outboundRoots, w.transportRoots);
      ghost var collected := outbounds;
      if !shadowed && w.default.Some? {
        outbounds := outbounds + [w.default.value];
      }
      transportRoots := transports;
      ghost var before := outbounds;
      usedTransports, outbounds := TransportWorklist(w.transports, w.transportRefs, transports, outbounds);
      outboundRoots := outbounds;
      RootsAre(rules, mode, fold, w, usedTransports, collected, before, outbounds);
      usedOutbounds := Worklist(w.outbounds, outbounds);
      Tell(w, usedOutbounds, usedTransports);
    }

    /** Over any sequence of updates, in any modes and worlds, every keeper of
        the latest world was last told whether it is referenced there. */
    method Loop(modes: seq<string>, worlds: seq<World>)
      returns (ghost usedOutbounds: set<string>, ghost usedTransports: set<string>, ghost outboundRoots: seq<string>, ghost transportRoots: seq<string>)
      requires Valid() && |modes| == |worlds| > 0 && forall i :: 0 <= i < |worlds| ==> WellFormed(worlds[i])
      modifies `told, `keepIdle
      ensures Valid()
      ensures var w, mode := worlds[|worlds| - 1], modes[|modes| - 1];
              && RootsCover(rules, mode, fold, w, outboundRoots)
              && (forall t :: t in transportRoots <==> t in w.transportRoots || CollectsServer(rules, mode, fold, t, |rules|))
              && (forall t :: t in usedTransports <==> Reachable(w.transports, transportRoots, t))
              && (forall t :: t in usedOutbounds <==> Reachable(w.outbounds, outboundRoots, t))
              && (forall k :: k in w.outboundKeepers ==> k.id in told && told[k.id] == (k.tag in usedOutbounds))
              && (forall k :: k in w.transportKeepers ==> k.id in told && told[k.id] == (k.tag in usedTransports))
    {
      for i := 0 to |worlds| - 1
        invariant Valid()
      {
        var _, _, _, _ := Update(modes[i], worlds[i]);
      }
      usedOutbounds, usedTransports, outboundRoots, transportRoots := Update(modes[|modes| - 1], worlds[|worlds| - 1]);
    }

    method Tell(w: World, usedOutbounds: set<string>, usedTransports: set<string>)
      requires Valid() && WellFormed(w)
      modifies `told, `keepIdle
      ensures Valid()
      ensures forall k :: k in w.outboundKeepers ==> k.id in told && told[k.id] == (k.tag in usedOutbounds)
      ensures forall k :: k in w.transportKeepers ==> k.id in told && told[k.id] == (k.tag in usedTransports)
    {
      var next := TellAll(map[], w.outboundKeepers, usedOutbounds);
      DecidedApart(w, usedOutbounds);
      next := TellAll(next, w.transportKeepers, usedTransports);
      DecidedBoth(w, usedOutbounds, usedTransports);
      keepIdle := next;
    }
  }

  lemma DecidedApart(w: World, usedOutbounds: set<string>)
    requires WellFormed(w)
    ensures forall i :: 0 <= i < |w.transportKeepers| ==>
              w.transportKeepers[i].id !in Decided(map[], w.outboundKeepers, usedOutbounds)
  {
    DecidedIs(map[], w.outboundKeepers, usedOutbounds);
    forall i | 0 <= i < |w.transportKeepers|
      ensures w.transportKeepers[i].id !in Decided(map[], w.outboundKeepers, usedOutbounds)
    {
      assert w.transportKeepers[i] in w.transportKeepers;
      assert forall k :: 0 <= k < |w.outboundKeepers| ==> w.outboundKeepers[k] in w.outboundKeepers;
    }
  }

  lemma DecidedBoth(w: World, usedOutbounds: set<string>, usedTransports: set<string>)
    requires WellFormed(w)
    ensures var m := Decided(Decided(map[], w.outboundKeepers, usedOutbounds), w.transportKeepers, usedTransports);
            && (forall k :: k in w.outboundKeepers ==> k.id in m && m[k.id] == (k.tag in usedOutbounds))
            && (forall k :: k in w.transportKeepers ==> k.id in m && m[k.id] == (k.tag in usedTransports))
  {
    var first := Decided(map[], w.outboundKeepers, usedOutbounds);
    var m := Decided(first, w.transportKeepers, usedTransports);
    DecidedIs(map[], w.outboundKeepers, usedOutbounds);
    DecidedIs(first, w.transportKeepers, usedTransports);
    forall k | k in w.outboundKeepers ensures k.id in m && m[k.id] == (k.tag in usedOutbounds) {
      var i :| 0 <= i < |w.outboundKeepers| && w.outboundKeepers[i] == k;
      assert k.id in first && first[k.id] == (k.tag in usedOutbounds);
      assert forall j :: 0 <= j < |w.transportKeepers| ==> w.transportKeepers[j] in w.transportKeepers;
    }
  }

  /** The map one update leaves behind. */
  function Decided(start: map<nat, bool>, keepers: seq<Keeper>, referenced: set<string>): map<nat, bool> {
    if keepers == [] then start
    else
      var last := keepers[|keepers| - 1];
      Decided(start, keepers[..|keepers| - 1], referenced)[last.id := last.tag in referenced]
  }

  lemma {:induction false} DecidedIs(start: map<nat, bool>, keepers: seq<Keeper>, referenced: set<string>)
    requires DistinctKeepers(keepers)
    ensures forall i :: 0 <= i < |keepers| ==>
              var m := Decided(start, keepers, referenced);
              keepers[i].id in m && m[keepers[i].id] == (keepers[i].tag in referenced)
    ensures forall id :: id in Decided(start, keepers, referenced) ==>
              id in start || exists i :: 0 <= i < |keepers| && keepers[i].id == id
    ensures forall id :: id in start && (forall i :: 0 <= i < |keepers| ==> keepers[i].id != id) ==>
              id in Decided(start, keepers, referenced) && Decided(start, keepers, referenced)[id] == start[id]
  {
    if keepers != [] {
      var front := keepers[..|keepers| - 1];
      assert forall i :: 0 <= i < |front| ==> front[i] == keepers[i];
      DecidedIs(start, front, referenced);
    }
  }

  lemma RootsAre(rules: seq<Rule>, mode: string, fold: Fold, w: World, used: set<string>,
                 collected: seq<string>, before: seq<string>, roots: seq<string>)
    requires Gathered(rules, mode, fold, w.outboundRoots, collected, |rules|)
    requires before == collected + (if !Shadowed(rules, mode, fold) && w.default.Some? then [w.default.value] else [])
    requires WithReferences(w.transportRefs, used, before, roots)
    ensures RootsCover(rules, mode, fold, w, roots) && RootsOnly(rules, mode, fold, w, used, roots)
  {}

  /** Soundness of the whole analysis: whatever the other conditions decide, the
      registered outbound a connection is sent to is marked as referenced. */
  lemma ChosenIsReferenced(rules: seq<Rule>, mode: string, fold: Fold, w: World, roots: seq<string>, used: set<string>,
                           holds: Truth, i: nat)
    requires AllBuildable(rules) && NoBlindTarget(rules, mode, fold) && RootsCover(rules, mode, fold, w, roots)
    requires forall t :: t in used <==> Reachable(w.outbounds, roots, t)
    requires Selects(rules, mode, fold, holds, i) && Target(rules[i].action).Some?
    requires Target(rules[i].action).value in w.outbounds
    ensures Target(rules[i].action).value in used
  {
    SelectionSound(rules, mode, fold, holds, i);
    Single(w.outbounds, Target(rules[i].action).value);
  }

  /** ... and so is the default, when no rule takes the connection. */
  lemma DefaultIsReferenced(rules: seq<Rule>, mode: string, fold: Fold, w: World, roots: seq<string>, used: set<string>, holds: Truth)
    requires AllBuildable(rules) && RootsCover(rules, mode, fold, w, roots)
    requires forall t :: t in used <==> Reachable(w.outbounds, roots, t)
    requires FallsThrough(rules, mode, fold, holds) && w.default.Some? && w.default.value in w.outbounds
    ensures w.default.value in used
  {
    FallThroughSound(rules, mode, fold, holds);
    Single(w.outbounds, w.default.value);
  }

  /** What a used outbound refers to is used as well, when it is registered. */
  lemma UsedIsClosed(w: World, roots: seq<string>, used: set<string>, t: string, u: string)
    requires forall x :: x in used <==> Reachable(w.outbounds, roots, x)
    requires t in used && Edge(w.outbounds, t, u) && u in w.outbounds
    ensures u in used
  {
    var r :| r in roots && Reaches(w.outbounds, r, t);
    EdgeReaches(w.outbounds, t, u);
    ReachesTransitive(w.outbounds, r, t, u);
  }
}
