/** The outbound options a provider imports, and the rewriting of the
    references they hold (adapter/provider/graph.go). */
module ProviderOptions {
  import opened Common

  /** The two places an outbound may name another one: the dialer's detour,
      present when the options carry dialer options, and the detour of an xhttp
      download, present when the transport is xhttp with a download section. */
  datatype Options = Options(dialer: Option<string>, download: Option<string>, rest: string)

  datatype Outbound = Outbound(tag: string, kind: string, options: Options)

  type TagMap = map<string, string>

  function Slots(o: Options): (r: seq<string>)
    ensures forall d :: d in r <==> o.dialer == Some(d) || o.download == Some(d)
  {
    (if o.dialer.Some? then [o.dialer.value] else [])
    + (if o.download.Some? then [o.download.value] else [])
  }

  predicate Internal(tags: TagMap, reference: string) {
    reference != "" && reference in tags
  }

  function Renamed(tags: TagMap, reference: string): string {
    if Internal(tags, reference) then tags[reference] else reference
  }

  function Rewritten(o: Options, tags: TagMap): Options {
    o.(dialer := if o.dialer.Some? then Some(Renamed(tags, o.dialer.value)) else None,
       download := if o.download.Some? then Some(Renamed(tags, o.download.value)) else None)
  }

  function WithDependency(dependencies: seq<string>, tags: TagMap, slot: Option<string>): seq<string> {
    if slot.Some? && Internal(tags, slot.value) && tags[slot.value] !in dependencies
    then dependencies + [tags[slot.value]]
    else dependencies
  }

  /** The dependencies collected: dialer first, then download, without repeats. */
  function References(o: Options, tags: TagMap): seq<string> {
    WithDependency(WithDependency([], tags, o.dialer), tags, o.download)
  }

  /** Exactly the new names of the internal references, each once. */
  lemma ReferencesAre(o: Options, tags: TagMap)
    ensures Distinct(References(o, tags))
    ensures forall d :: d in References(o, tags) <==> exists s :: s in Slots(o) && Internal(tags, s) && tags[s] == d
  {
    var r := References(o, tags);
    forall d | exists s :: s in Slots(o) && Internal(tags, s) && tags[s] == d ensures d in r {
      var s :| s in Slots(o) && Internal(tags, s) && tags[s] == d;
    }
    forall d | d in r ensures exists s :: s in Slots(o) && Internal(tags, s) && tags[s] == d {
      if o.dialer.Some? && Internal(tags, o.dialer.value) && tags[o.dialer.value] == d {
        assert o.dialer.value in Slots(o);
      } else {
        assert o.download.value in Slots(o);
      }
    }
  }

  method AddDependency(dependencies: seq<string>, tags: TagMap, tag: string)
    returns (extended: seq<string>, name: string)
    ensures extended == WithDependency(dependencies, tags, Some(tag))
    ensures name == Renamed(tags, tag)
  {
    extended, name := dependencies, tag;
    if tag !in tags || tag == "" {
      return;
    }
    name := tags[tag];
    for i := 0 to |dependencies|
      invariant name !in dependencies[..i]
    {
      if dependencies[i] == name {
        return;
      }
    }
    extended := dependencies + [name];
  }

  method RewriteOutboundReferences(options: Options, tags: TagMap)
    returns (rewritten: Options, dependencies: seq<string>)
    ensures rewritten == Rewritten(options, tags)
    ensures dependencies == References(options, tags)
    ensures Distinct(dependencies)
    ensures forall d :: d in dependencies <==> exists s :: s in Slots(options) && Internal(tags, s) && tags[s] == d
  {
    rewritten, dependencies := options, [];
    if options.dialer.Some? {
      var name;
      dependencies, name := AddDependency(dependencies, tags, options.dialer.value);
      rewritten := rewritten.(dialer := Some(name));
    }
    if options.download.Some? {
      var name;
      dependencies, name := AddDependency(dependencies, tags, options.download.value);
      rewritten := rewritten.(download := Some(name));
    }
    ReferencesAre(options, tags);
  }

  function Identity(names: set<string>): TagMap {
    map n | n in names :: n
  }

  /** Under a map of every known name to itself rewriting changes nothing. */
  lemma IdentityRewritesNothing(o: Options, names: set<string>)
    ensures Rewritten(o, Identity(names)) == o
    ensures forall d :: d in References(o, Identity(names)) <==> d in Slots(o) && d != "" && d in names
  {
    ReferencesAre(o, Identity(names));
  }

  /** The names of a list of outbounds. */
  function NamesOf(outbounds: seq<Outbound>): set<string> {
    set i | 0 <= i < |outbounds| && outbounds[i].tag != "" :: outbounds[i].tag
  }

  lemma NamesStep(outbounds: seq<Outbound>, i: nat)
    requires i < |outbounds|
    ensures NamesOf(outbounds[..i + 1]) == NamesOf(outbounds[..i]) + (if outbounds[i].tag == "" then {} else {outbounds[i].tag})
  {
    var here, next := NamesOf(outbounds[..i]), NamesOf(outbounds[..i + 1]);
    assert outbounds[..i + 1][i] == outbounds[i];
    forall t | t in here ensures t in next {
      var j :| 0 <= j < i && outbounds[..i][j].tag != "" && outbounds[..i][j].tag == t;
      assert outbounds[..i + 1][j].tag == t;
    }
    forall t | t in next ensures t in here || (outbounds[i].tag != "" && t == outbounds[i].tag) {
      var j :| 0 <= j < i + 1 && outbounds[..i + 1][j].tag != "" && outbounds[..i + 1][j].tag == t;
      if j < i {
        assert outbounds[..i][j].tag == t;
      }
    }
  }
}
