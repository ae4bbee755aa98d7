/** Which references to outside outbounds the cleaning of imported names
    captures, told from the names before it (adapter/provider/adapter.go,
    normalizeOutboundTags). */
module ProviderCapture {
  import opened Decimals
  import opened Graphs
  import opened ProviderOptions
  import opened ProviderFilter
  import opened ProviderTags

  function Base(before: seq<Outbound>, rename: string -> string, i: nat): string
    requires i < |before|
  {
    BaseName(rename, before[i].tag, i)
  }

  ghost predicate IsBase(before: seq<Outbound>, rename: string -> string, s: string) {
    exists i: nat :: i < |before| && Base(before, rename, i) == s
  }

  /** The first outbound whose cleaned name is s. */
  ghost predicate FirstBase(before: seq<Outbound>, rename: string -> string, s: string, j: nat) {
    && j < |before| && Base(before, rename, j) == s
    && forall k: nat :: k < j ==> Base(before, rename, k) != s
  }

  /** Not of the form "base #n". */
  ghost predicate Plain(s: string) {
    forall b: string, n: nat :: s != Numbered(b, n)
  }

  /* Which names are given. */

  lemma NameIs(before: seq<Outbound>, names: seq<string>, rename: string -> string, i: nat)
    requires AllPicked(before, names, rename) && i < |names|
    ensures names[i] == Base(before, rename, i) || exists n: nat :: n >= 2 && names[i] == Numbered(Base(before, rename, i), n)
  {
    assert Picked(before, names, rename, i);
  }

  /** Every cleaned name is given, to this outbound or an earlier one. */
  lemma BaseGiven(before: seq<Outbound>, names: seq<string>, rename: string -> string, i: nat) returns (j: nat)
    requires AllPicked(before, names, rename) && i < |names|
    ensures j <= i && names[j] == Base(before, rename, i)
  {
    assert Picked(before, names, rename, i);
    j := i;
    if Base(before, rename, i) in Taken(names[..i]) {
      j :| 0 <= j < i && names[..i][j] == Base(before, rename, i);
    }
  }

  /** A name is given exactly when it is some outbound's cleaned name, or a
      numbered form of one that its outbound had to fall back to. */
  lemma NamesGiven(before: seq<Outbound>, names: seq<string>, rename: string -> string, s: string)
    requires AllPicked(before, names, rename) && |names| == |before|
    ensures s in names <==>
              || IsBase(before, rename, s)
              || exists i: nat, n: nat :: i < |names| && n >= 2 && names[i] == s == Numbered(Base(before, rename, i), n)
  {
    if IsBase(before, rename, s) {
      var i: nat :| i < |before| && Base(before, rename, i) == s;
      var j := BaseGiven(before, names, rename, i);
    }
    if s in names {
      var i: nat :| i < |names| && names[i] == s;
      NameIs(before, names, rename, i);
    }
  }

  /** A plain name goes to the first outbound that cleans to it, and to no other. */
  lemma PlainGiven(before: seq<Outbound>, names: seq<string>, rename: string -> string, s: string, j: nat)
    requires AllPicked(before, names, rename) && |names| == |before| && j < |names| && Plain(s)
    ensures names[j] == s <==> FirstBase(before, rename, s, j)
  {
    assert Picked(before, names, rename, j);
    if names[j] == s {
      NameIs(before, names, rename, j);
      forall k: nat | k < j ensures Base(before, rename, k) != s {
        if Base(before, rename, k) == s {
          var first := BaseGiven(before, names, rename, k);
          NamesDistinct(before, names, rename, first, j);
        }
      }
    }
    if FirstBase(before, rename, s, j) && s in Taken(names[..j]) {
      var k :| 0 <= k < j && names[..j][k] == s;
      NameIs(before, names, rename, k);
    }
  }

  /** For an outbound whose outside references are plain, the references
      afterwards are the old ones, and those to the first outbound that cleans to
      the outside name. */
  lemma CapturedExactly(before: seq<Outbound>, after: seq<Outbound>, rename: string -> string,
                        names: seq<string>, tags: TagMap, i: nat, j: nat)
    requires Normalized(before, after, rename, names, tags) && i < |before| && j < |before|
    requires forall s :: s in Slots(before[i].options) && External(before, s) ==> Plain(s)
    ensures Edge(DetourGraph(after), i, j) <==>
              || Edge(DetourGraph(before), i, j)
              || exists s :: s in Slots(before[i].options) && External(before, s) && FirstBase(before, rename, s, j)
  {
    ReferencesAfter(before, after, rename, names, tags, i, j);
    if Captured(before, after, i, j) {
      var s :| s in Slots(before[i].options) && s != "" && External(before, s) && s == after[j].tag;
      PlainGiven(before, names, rename, s, j);
    }
    if s :| s in Slots(before[i].options) && External(before, s) && FirstBase(before, rename, s, j) {
      PlainGiven(before, names, rename, s, j);
    }
  }

  /* Numbered names. */

  lemma {:induction false} DigitsOnly(n: nat, k: nat)
    requires k < |Decimal(n)|
    ensures Decimal(n)[k] != '#'
  {
    if n >= 10 && k < |Decimal(n)| - 1 {
      DigitsOnly(n / 10, k);
    }
  }

  /** A numbered name tells its base and its number. */
  lemma NumberedUnique(b: string, n: nat, c: string, m: nat)
    requires Numbered(b, n) == Numbered(c, m)
    ensures b == c && n == m
  {
    HashPlace(b, n, c, m);
    HashPlace(c, m, b, n);
    var s := Numbered(b, n);
    assert s[..|b|] == b && s[..|c|] == c;
    NumberedInjective(b, n, m);
  }

  lemma HashPlace(b: string, n: nat, c: string, m: nat)
    requires Numbered(b, n) == Numbered(c, m)
    ensures |b| <= |c|
  {
    var s := Numbered(b, n);
    assert s[|b| + 1] == '#';
    if |c| < |b| {
      assert s[|b| + 1] == Decimal(m)[|b| - |c| - 1];
      DigitsOnly(m, |b| - |c| - 1);
    }
  }

  /** No cleaned name is a numbered form of a cleaned name. */
  ghost predicate NoneNumbered(before: seq<Outbound>, rename: string -> string) {
    forall i: nat, k: nat, n: nat ::
      i < |before| && k < |before| && n >= 2 ==> Base(before, rename, i) != Numbered(Base(before, rename, k), n)
  }

  /** How many of the first i outbounds clean to s. */
  ghost function Earlier(before: seq<Outbound>, rename: string -> string, s: string, i: nat): nat
    requires i <= |before|
  {
    if i == 0 then 0 else Earlier(before, rename, s, i - 1) + if Base(before, rename, i - 1) == s then 1 else 0
  }

  function Nth(base: string, earlier: nat): string {
    if earlier == 0 then base else Numbered(base, earlier + 1)
  }

  lemma {:induction false} EarlierGrows(before: seq<Outbound>, rename: string -> string, s: string, k: nat, i: nat)
    requires k < i <= |before| && Base(before, rename, k) == s
    ensures Earlier(before, rename, s, k) < Earlier(before, rename, s, i)
    decreases i
  {
    if k < i - 1 {
      EarlierGrows(before, rename, s, k, i - 1);
    }
  }

  lemma {:induction false} EarlierHits(before: seq<Outbound>, rename: string -> string, s: string, i: nat, c: nat) returns (k: nat)
    requires i <= |before| && c < Earlier(before, rename, s, i)
    ensures k < i && Base(before, rename, k) == s && Earlier(before, rename, s, k) == c
    decreases i
  {
    if c < Earlier(before, rename, s, i - 1) {
      k := EarlierHits(before, rename, s, i - 1, c);
    } else {
      k := i - 1;
    }
  }

  ghost predicate NthUpTo(before: seq<Outbound>, names: seq<string>, rename: string -> string, i: nat)
    requires i <= |names| == |before|
  {
    forall k: nat :: k < i ==> names[k] == Nth(Base(before, rename, k), Earlier(before, rename, Base(before, rename, k), k))
  }

  lemma NotYetTaken(before: seq<Outbound>, names: seq<string>, rename: string -> string, i: nat)
    requires |names| == |before| && NoneNumbered(before, rename) && i < |names| && NthUpTo(before, names, rename, i)
    requires Earlier(before, rename, Base(before, rename, i), i) > 0
    ensures Numbered(Base(before, rename, i), Earlier(before, rename, Base(before, rename, i), i) + 1) !in Taken(names[..i])
  {
    var base := Base(before, rename, i);
    var next := Earlier(before, rename, base, i) + 1;
    if Numbered(base, next) in Taken(names[..i]) {
      var k: nat :| k < i && names[..i][k] == Numbered(base, next);
      var its := Base(before, rename, k);
      var c := Earlier(before, rename, its, k);
      assert Nth(its, c) == Numbered(base, next);
      if c > 0 {
        NumberedUnique(its, c + 1, base, next);
        EarlierGrows(before, rename, base, k, i);
      }
    }
  }

  /** The base is free exactly for the first outbound of its name. */
  lemma FirstOfName(before: seq<Outbound>, names: seq<string>, rename: string -> string, i: nat)
    requires |names| == |before| && NoneNumbered(before, rename) && i < |names| && NthUpTo(before, names, rename, i)
    ensures Base(before, rename, i) in Taken(names[..i]) <==> Earlier(before, rename, Base(before, rename, i), i) > 0
  {
    var base := Base(before, rename, i);
    if base in Taken(names[..i]) {
      var k: nat :| k < i && names[..i][k] == base;
      assert names[k] == Nth(Base(before, rename, k), Earlier(before, rename, Base(before, rename, k), k));
      assert Base(before, rename, k) == base;
      EarlierGrows(before, rename, base, k, i);
    }
    if Earlier(before, rename, base, i) > 0 {
      var first := EarlierHits(before, rename, base, i, 0);
      assert names[..i][first] == Nth(base, 0);
    }
  }

  /** Every lower number of the name is taken. */
  lemma LowerTaken(before: seq<Outbound>, names: seq<string>, rename: string -> string, i: nat, n: nat)
    requires |names| == |before| && i < |names| && NthUpTo(before, names, rename, i)
    requires 2 <= n <= Earlier(before, rename, Base(before, rename, i), i)
    ensures Numbered(Base(before, rename, i), n) in Taken(names[..i])
  {
    var other := EarlierHits(before, rename, Base(before, rename, i), i, n - 1);
    assert names[..i][other] == Nth(Base(before, rename, i), n - 1);
  }

  /** The first free name when the base and the numbers up to c are taken. */
  lemma FreeIsNext(used: set<string>, base: string, name: string, c: nat)
    requires FirstFree(used, base, name) && (base in used <==> c > 0)
    requires c > 0 ==> Numbered(base, c + 1) !in used
    requires forall n: nat :: 2 <= n <= c ==> Numbered(base, n) in used
    ensures name == Nth(base, c)
  {
  }

  lemma NextName(before: seq<Outbound>, names: seq<string>, rename: string -> string, i: nat)
    requires |names| == |before| && NoneNumbered(before, rename) && i < |names| && NthUpTo(before, names, rename, i)
    requires Picked(before, names, rename, i)
    ensures names[i] == Nth(Base(before, rename, i), Earlier(before, rename, Base(before, rename, i), i))
  {
    var base, used := Base(before, rename, i), Taken(names[..i]);
    var c := Earlier(before, rename, base, i);
    FirstOfName(before, names, rename, i);
    if c > 0 {
      NotYetTaken(before, names, rename, i);
    }
    forall n: nat | 2 <= n <= c ensures Numbered(base, n) in used {
      LowerTaken(before, names, rename, i, n);
    }
    FreeIsNext(used, base, names[i], c);
  }

  lemma NthMore(before: seq<Outbound>, names: seq<string>, rename: string -> string, i: nat)
    requires |names| == |before| && i < |names| && NthUpTo(before, names, rename, i)
    requires names[i] == Nth(Base(before, rename, i), Earlier(before, rename, Base(before, rename, i), i))
    ensures NthUpTo(before, names, rename, i + 1)
  {
  }

  lemma {:induction false} NthSoFar(before: seq<Outbound>, names: seq<string>, rename: string -> string, i: nat)
    requires AllPicked(before, names, rename) && |names| == |before| && NoneNumbered(before, rename) && i <= |names|
    ensures NthUpTo(before, names, rename, i)
  {
    if i > 0 {
      NthSoFar(before, names, rename, i - 1);
      assert Picked(before, names, rename, i - 1);
      NextName(before, names, rename, i - 1);
      NthMore(before, names, rename, i - 1);
    }
  }

  /** When no cleaned name is a numbered form of another, the names are known from
      the input: the first outbound of a cleaned name keeps it, the second
      gets #2, the third #3, and so on. */
  lemma NamesAreNth(before: seq<Outbound>, names: seq<string>, rename: string -> string, i: nat)
    requires AllPicked(before, names, rename) && |names| == |before| && NoneNumbered(before, rename) && i < |names|
    ensures names[i] == Nth(Base(before, rename, i), Earlier(before, rename, Base(before, rename, i), i))
  {
    NthSoFar(before, names, rename, i + 1);
  }

  /** Then every reference afterwards is known from the input too. */
  lemma CapturedByCount(before: seq<Outbound>, after: seq<Outbound>, rename: string -> string,
                        names: seq<string>, tags: TagMap, i: nat, j: nat)
    requires Normalized(before, after, rename, names, tags) && i < |before| && j < |before| && NoneNumbered(before, rename)
    ensures Edge(DetourGraph(after), i, j) <==>
              || Edge(DetourGraph(before), i, j)
              || exists s :: s in Slots(before[i].options) && External(before, s)
                          && s == Nth(Base(before, rename, j), Earlier(before, rename, Base(before, rename, j), j))
  {
    ReferencesAfter(before, after, rename, names, tags, i, j);
    NamesAreNth(before, names, rename, j);
    NamesNonEmpty(before, names, rename, j);
  }
}
