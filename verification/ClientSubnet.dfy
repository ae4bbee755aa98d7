/** Client subnet options in DNS messages, and the subnet the cache key is given
    for a message (dns/extension_edns0_subnet.go, dns/client.go). */
module ClientSubnet {
  import opened Common
  import opened DnsMessage

  datatype Addr = NoAddr | V4(bytes: seq<nat>) | V6(bytes: seq<nat>)

  /** `bits` is -1 when the length does not fit the address. */
  datatype Prefix = Prefix(addr: Addr, bits: int)

  const NO_PREFIX := Prefix(NoAddr, -1)

  function AddrFromSlice(bytes: seq<nat>): Addr {
    if |bytes| == 4 then V4(bytes) else if |bytes| == 16 then V6(bytes) else NoAddr
  }

  /** An IPv6 address that stands for an IPv4 one, ::ffff:a.b.c.d. */
  predicate Mapped(bytes: seq<nat>) {
    |bytes| == 16 && bytes[..12] == [0, 0, 0, 0, 0, 0, 0, 0, 0, 0, 255, 255]
  }

  function Unmap(a: Addr): Addr {
    if a.V6? && Mapped(a.bytes) then V4(a.bytes[12..]) else a
  }

  function BitLen(a: Addr): nat {
    match a case NoAddr => 0 case V4(_) => 32 case V6(_) => 128
  }

  function PrefixFrom(a: Addr, bits: nat): Prefix {
    Prefix(a, if a != NoAddr && bits <= BitLen(a) then bits else -1)
  }

  predicate Valid(p: Prefix) {
    p.bits >= 0
  }

  /** A subnet that a configuration can name. */
  predicate WellFormed(p: Prefix) {
    match p.addr
    case NoAddr => false
    case V4(bytes) => |bytes| == 4 && 0 <= p.bits <= 32
    case V6(bytes) => |bytes| == 16 && 0 <= p.bits <= 128
  }

  /* Which subnet a message carries. */

  /** The first client subnet option, in the order of records and options. */
  function FirstInOptions(options: seq<EdnsOption>): Option<Ecs> {
    if options == [] then None
    else if options[0].Subnet? then Some(options[0].ecs)
    else FirstInOptions(options[1..])
  }

  function FirstSubnet(extra: seq<Record>): Option<Ecs> {
    if extra == [] then None
    else if extra[0].Opt? && FirstInOptions(extra[0].options).Some? then FirstInOptions(extra[0].options)
    else FirstSubnet(extra[1..])
  }

  function SubnetsIn(options: seq<EdnsOption>): seq<Ecs> {
    if options == [] then []
    else (if options[0].Subnet? then [options[0].ecs] else []) + SubnetsIn(options[1..])
  }

  function SubnetsOf(r: Record): seq<Ecs> {
    if r.Opt? then SubnetsIn(r.options) else []
  }

  /** Every client subnet option of the message, in order. */
  function Subnets(extra: seq<Record>): seq<Ecs> {
    if extra == [] then [] else SubnetsOf(extra[0]) + Subnets(extra[1..])
  }

  function Head(s: seq<Ecs>): Option<Ecs> {
    if s == [] then None else Some(s[0])
  }

  function Tail(s: seq<Ecs>): seq<Ecs> {
    if s == [] then [] else s[1..]
  }

  lemma {:induction false} FirstInIsHead(options: seq<EdnsOption>)
    ensures FirstInOptions(options) == Head(SubnetsIn(options))
  {
    if options != [] {
      FirstInIsHead(options[1..]);
    }
  }

  lemma {:induction false} FirstIsHead(extra: seq<Record>)
    ensures FirstSubnet(extra) == Head(Subnets(extra))
  {
    if extra != [] {
      FirstIsHead(extra[1..]);
      if extra[0].Opt? {
        FirstInIsHead(extra[0].options);
      }
    }
  }

  lemma Associative(a: seq<Ecs>, b: seq<Ecs>, c: seq<Ecs>)
    ensures a + b + c == a + (b + c)
  {}

  lemma {:induction false} SubnetsConcat(a: seq<Record>, b: seq<Record>)
    ensures Subnets(a + b) == Subnets(a) + Subnets(b)
  {
    if a == [] {
      assert a + b == b;
    } else {
      var whole, rest := a + b, a[1..];
      assert whole[1..] == rest + b && whole[0] == a[0];
      SubnetsConcat(rest, b);
      Associative(SubnetsOf(a[0]), Subnets(rest), Subnets(b));
    }
  }

  lemma {:induction false} NoSubnets(extra: seq<Record>)
    requires forall k :: 0 <= k < |extra| && extra[k].Opt? ==> FirstInOptions(extra[k].options).None?
    ensures Subnets(extra) == []
  {
    if extra != [] {
      NoSubnets(extra[1..]);
      if extra[0].Opt? {
        FirstInIsHead(extra[0].options);
      }
    }
  }

  /** The options of one record among those before and after it. */
  lemma SubnetsAround(extra: seq<Record>, i: nat)
    requires i < |extra|
    ensures Subnets(extra) == Subnets(extra[..i]) + SubnetsOf(extra[i]) + Subnets(extra[i + 1..])
  {
    var front, back := extra[..i], extra[i..];
    assert extra == front + back;
    SubnetsConcat(front, back);
    assert back[0] == extra[i] && back[1..] == extra[i + 1..];
    Associative(Subnets(front), SubnetsOf(extra[i]), Subnets(extra[i + 1..]));
  }

  function KeyPrefix(ecs: Ecs): Prefix {
    var a := AddrFromSlice(ecs.address);
    if a == NoAddr then NO_PREFIX else PrefixFrom(Unmap(a), ecs.mask)
  }

  /** The subnet an option means on the wire, section 6 of RFC 7871: family 1 is
      an IPv4 and family 2 an IPv6 address, and the length must fit. */
  function Meaning(ecs: Ecs): Option<Prefix> {
    if ecs.family == 1 && ecs.mask <= 32 && |ecs.address| == 4 then Some(Prefix(V4(ecs.address), ecs.mask))
    else if ecs.family == 1 && ecs.mask <= 32 && Mapped(ecs.address) then Some(Prefix(V4(ecs.address[12..]), ecs.mask))
    else if ecs.family == 2 && ecs.mask <= 128 && |ecs.address| == 16 then Some(Prefix(V6(ecs.address), ecs.mask))
    else None
  }

  /** The key names the very subnet the option means, except for an IPv6 option
      whose address is IPv4-mapped. */
  lemma KeyIsMeaning(ecs: Ecs)
    requires Meaning(ecs).Some?
    ensures KeyPrefix(ecs) == Meaning(ecs).value <==> !(ecs.family == 2 && Mapped(ecs.address))
  {}

  /** Two options that mean different subnets and share a key. */
  lemma MappedOptionsCollide()
    ensures var v4 := Ecs(1, 24, [192, 0, 2, 0]);
            var v6 := Ecs(2, 24, [0, 0, 0, 0, 0, 0, 0, 0, 0, 0, 255, 255, 192, 0, 2, 0]);
            KeyPrefix(v4) == KeyPrefix(v6) && Meaning(v4).Some? && Meaning(v6).Some? && Meaning(v4) != Meaning(v6)
  {
    var bytes := [0, 0, 0, 0, 0, 0, 0, 0, 0, 0, 255, 255, 192, 0, 2, 0];
    assert Mapped(bytes);
    assert bytes[12..] == [192, 0, 2, 0];
  }

  /** Apart from IPv4-mapped IPv6 options, equal keys mean equal subnets. */
  lemma KeysSeparate(a: Ecs, b: Ecs)
    requires Meaning(a).Some? && Meaning(b).Some? && KeyPrefix(a) == KeyPrefix(b)
    requires !(a.family == 2 && Mapped(a.address)) && !(b.family == 2 && Mapped(b.address))
    ensures Meaning(a) == Meaning(b)
  {
    KeyIsMeaning(a);
    KeyIsMeaning(b);
  }

  lemma FirstSkips(options: seq<EdnsOption>, i: nat)
    requires i <= |options| && forall k :: 0 <= k < i ==> !options[k].Subnet?
    ensures FirstInOptions(options) == FirstInOptions(options[i..])
    decreases i
  {
    if i > 0 {
      FirstSkips(options[1..], i - 1);
      assert options[1..][i - 1..] == options[i..];
    } else {
      assert options[0..] == options;
    }
  }

  lemma FirstSubnetSkips(extra: seq<Record>, i: nat)
    requires i <= |extra|
    requires forall k :: 0 <= k < i && extra[k].Opt? ==> FirstInOptions(extra[k].options).None?
    ensures FirstSubnet(extra) == FirstSubnet(extra[i..])
    decreases i
  {
    if i > 0 {
      FirstSubnetSkips(extra[1..], i - 1);
      assert extra[1..][i - 1..] == extra[i..];
    } else {
      assert extra[0..] == extra;
    }
  }

  /** Where the first subnet option stands in a list of options. */
  method FindOption(options: seq<EdnsOption>) returns (at: Option<nat>)
    ensures at.None? <==> FirstInOptions(options).None?
    ensures at.Some? ==> at.value < |options| && options[at.value].Subnet? && FirstInOptions(options) == Some(options[at.value].ecs)
    ensures at.Some? ==> forall k :: 0 <= k < at.value ==> !options[k].Subnet?
  {
    for i := 0 to |options|
      invariant forall k :: 0 <= k < i ==> !options[k].Subnet?
    {
      FirstSkips(options, i);
      if options[i].Subnet? {
        return Some(i);
      }
    }
    FirstSkips(options, |options|);
    return None;
  }

  method ClientSubnetFromMessage(m: Msg) returns (p: Prefix)
    ensures p == SubnetKey(m)
  {
    for i := 0 to |m.extra|
      invariant forall k :: 0 <= k < i && m.extra[k].Opt? ==> FirstInOptions(m.extra[k].options).None?
    {
      FirstSubnetSkips(m.extra, i);
      if m.extra[i].Opt? {
        var at := FindOption(m.extra[i].options);
        if at.Some? {
          var ecs := m.extra[i].options[at.value].ecs;
          var a := AddrFromSlice(ecs.address);
          if a == NoAddr {
            return NO_PREFIX;
          }
          return PrefixFrom(Unmap(a), ecs.mask);
        }
      }
    }
    FirstSubnetSkips(m.extra, |m.extra|);
    return NO_PREFIX;
  }

  /** The prefix the cache key is given for a message. */
  function SubnetKey(m: Msg): Prefix {
    match FirstSubnet(m.extra) case None => NO_PREFIX case Some(ecs) => KeyPrefix(ecs)
  }

  /* Removing the subnet. */

  function Stripped(options: seq<EdnsOption>): (r: seq<EdnsOption>)
    ensures forall o :: o in r <==> o in options && !o.Subnet?
  {
    if options == [] then []
    else
      assert options == [options[0]] + options[1..];
      (if options[0].Subnet? then [] else [options[0]]) + Stripped(options[1..])
  }

  function StrippedRecord(r: Record): Record {
    if r.Opt? then r.(options := Stripped(r.options)) else r
  }

  function StrippedExtra(extra: seq<Record>): (r: seq<Record>)
    ensures |r| == |extra| && forall k :: 0 <= k < |r| ==> r[k] == StrippedRecord(extra[k])
  {
    seq(|extra|, k requires 0 <= k < |extra| => StrippedRecord(extra[k]))
  }

  lemma {:induction false} NothingToStrip(options: seq<EdnsOption>)
    requires FirstInOptions(options).None?
    ensures Stripped(options) == options
  {
    if options != [] {
      NothingToStrip(options[1..]);
      assert options == [options[0]] + options[1..];
    }
  }

  lemma {:induction false} StrippedHasNone(options: seq<EdnsOption>)
    ensures FirstInOptions(Stripped(options)).None?
  {
    if options != [] {
      StrippedHasNone(options[1..]);
      if options[0].Subnet? {
        assert Stripped(options) == Stripped(options[1..]);
      } else {
        assert Stripped(options)[1..] == Stripped(options[1..]);
      }
    }
  }

  lemma StrippedExtraHasNone(extra: seq<Record>)
    ensures Subnets(StrippedExtra(extra)) == []
  {
    var r := StrippedExtra(extra);
    forall k | 0 <= k < |r| && r[k].Opt? ensures FirstInOptions(r[k].options).None? {
      StrippedHasNone(extra[k].options);
    }
    NoSubnets(r);
  }

  /** Takes every subnet option out and leaves everything else as it was. */
  method RemoveClientSubnet(m: Msg) returns (r: Msg)
    ensures r == m.(extra := StrippedExtra(m.extra))
    ensures Subnets(r.extra) == []
  {
    StrippedExtraHasNone(m.extra);
    var extra: seq<Record> := [];
    for i := 0 to |m.extra|
      invariant |extra| == i && forall k :: 0 <= k < i ==> extra[k] == StrippedRecord(m.extra[k])
    {
      var record := m.extra[i];
      if record.Opt? {
        var at := FindOption(record.options);
        if at.None? {
          NothingToStrip(record.options);
        } else {
          record := record.(options := Stripped(record.options));
        }
      }
      extra := extra + [record];
    }
    r := m.(extra := extra);
  }

  /* Setting the subnet. */

  function EcsOf(p: Prefix): Ecs
    requires WellFormed(p)
  {
    Ecs(if p.addr.V4? then 1 else 2, p.bits, p.addr.bytes)
  }

  /** The option means the configured subnet, and a key taken from it would be
      that subnet unless it is an IPv4-mapped IPv6 one. */
  lemma EcsOfMeans(p: Prefix)
    requires WellFormed(p)
    ensures Meaning(EcsOf(p)) == Some(p)
    ensures KeyPrefix(EcsOf(p)) == p <==> !(p.addr.V6? && Mapped(p.addr.bytes))
  {
    KeyIsMeaning(EcsOf(p));
  }

  lemma FirstOfReplaced(options: seq<EdnsOption>, at: nat, ecs: Ecs)
    requires at < |options| && options[at].Subnet? && forall k :: 0 <= k < at ==> !options[k].Subnet?
    ensures FirstInOptions(options[at := Subnet(ecs)]) == Some(ecs)
    ensures Stripped(options[at := Subnet(ecs)]) == Stripped(options)
    decreases at
  {
    var now := options[at := Subnet(ecs)];
    assert options == [options[0]] + options[1..];
    if at > 0 {
      FirstOfReplaced(options[1..], at - 1, ecs);
      assert now[1..] == options[1..][at - 1 := Subnet(ecs)];
    } else {
      assert now[1..] == options[1..];
    }
  }

  lemma SubnetsInReplaced(options: seq<EdnsOption>, at: nat, ecs: Ecs)
    requires at < |options| && options[at].Subnet? && forall k :: 0 <= k < at ==> !options[k].Subnet?
    ensures SubnetsIn(options) != [] && SubnetsIn(options[at := Subnet(ecs)]) == [ecs] + SubnetsIn(options)[1..]
    decreases at
  {
    var now, rest := options[at := Subnet(ecs)], options[1..];
    if at > 0 {
      SubnetsInReplaced(rest, at - 1, ecs);
      assert now[1..] == rest[at - 1 := Subnet(ecs)];
      assert SubnetsIn(now) == SubnetsIn(now[1..]) && SubnetsIn(options) == SubnetsIn(rest);
    } else {
      assert now[1..] == rest;
      assert SubnetsIn(options) == [options[0].ecs] + SubnetsIn(rest);
      assert SubnetsIn(options)[1..] == SubnetsIn(rest);
    }
  }

  lemma {:induction false} FirstOfAppended(options: seq<EdnsOption>, ecs: Ecs)
    requires FirstInOptions(options).None?
    ensures FirstInOptions(options + [Subnet(ecs)]) == Some(ecs)
    ensures Stripped(options + [Subnet(ecs)]) == Stripped(options)
    ensures SubnetsIn(options) == [] && SubnetsIn(options + [Subnet(ecs)]) == [ecs]
  {
    if options != [] {
      FirstOfAppended(options[1..], ecs);
      assert (options + [Subnet(ecs)])[1..] == options[1..] + [Subnet(ecs)];
    } else {
      assert (options + [Subnet(ecs)])[1..] == [];
    }
  }

  lemma FirstSubnetAt(extra: seq<Record>, i: nat)
    requires i < |extra| && extra[i].Opt? && FirstInOptions(extra[i].options).Some?
    requires forall k :: 0 <= k < i && extra[k].Opt? ==> FirstInOptions(extra[k].options).None?
    ensures FirstSubnet(extra) == FirstInOptions(extra[i].options)
  {
    FirstSubnetSkips(extra, i);
  }

  /** The record that holds a subnet option, if any does, else whether the last
      record is an OPT record. */
  method FindRecord(extra: seq<Record>) returns (record: Option<nat>, option: Option<nat>)
    ensures option.Some? <==> FirstSubnet(extra).Some?
    ensures option.Some? ==>
              && record.Some? && record.value < |extra| && extra[record.value].Opt?
              && (forall k :: 0 <= k < record.value && extra[k].Opt? ==> FirstInOptions(extra[k].options).None?)
              && option.value < |extra[record.value].options| && extra[record.value].options[option.value].Subnet?
              && (forall k :: 0 <= k < option.value ==> !extra[record.value].options[k].Subnet?)
    ensures option.None? ==> forall k :: 0 <= k < |extra| && extra[k].Opt? ==> FirstInOptions(extra[k].options).None?
    ensures option.None? ==>
              record == if |extra| > 0 && extra[|extra| - 1].Opt? then Some(|extra| - 1) else None
  {
    record, option := None, None;
    for i := 0 to |extra|
      invariant option.None?
      invariant record == if i > 0 && extra[i - 1].Opt? then Some(i - 1) else None
      invariant forall k :: 0 <= k < i && extra[k].Opt? ==> FirstInOptions(extra[k].options).None?
    {
      if extra[i].Opt? {
        record := Some(i);
        option := FindOption(extra[i].options);
        if option.Some? {
          FirstSubnetAt(extra, i);
          return;
        }
      } else {
        record := None;
      }
    }
    FirstSubnetSkips(extra, |extra|);
  }

  /** An OPT record is added when no subnet option is there to replace and the
      last additional record is not an OPT record. */
  predicate AddsRecord(extra: seq<Record>) {
    FirstSubnet(extra).None? && !(|extra| > 0 && extra[|extra| - 1].Opt?)
  }

  /** Everything but subnet options stays, and an empty OPT record comes at the
      end exactly when one is added. */
  ghost predicate KeepsRest(before: seq<Record>, after: seq<Record>) {
    StrippedExtra(after) == StrippedExtra(before) + (if AddsRecord(before) then [Opt(0, 0, [])] else [])
  }

  /** The message carries the given subnet in place of the first one it had;
      later subnet options stay, and so does everything else. The number of OPT
      records grows by one exactly when one is added. */
  method SetClientSubnet(m: Msg, p: Prefix) returns (r: Msg)
    requires WellFormed(p)
    ensures Subnets(r.extra) == [EcsOf(p)] + Tail(Subnets(m.extra))
    ensures r == m.(extra := r.extra)
    ensures KeepsRest(m.extra, r.extra)
    ensures OptCount(r.extra) == OptCount(m.extra) + (if AddsRecord(m.extra) then 1 else 0)
  {
    var record, option := FindRecord(m.extra);
    var extra := m.extra;
    if record.None? {
      StrippedMore(extra);
      SubnetsConcat(extra, [Opt(0, 0, [])]);
      extra := extra + [Opt(0, 0, [])];
      record := Some(|m.extra|);
    }
    var i := record.value;
    var options := extra[i].options;
    if option.None? {
      FirstOfAppended(options, EcsOf(p));
      options := options + [Subnet(EcsOf(p))];
    } else {
      FirstOfReplaced(options, option.value, EcsOf(p));
      SubnetsInReplaced(options, option.value, EcsOf(p));
      options := options[option.value := Subnet(EcsOf(p))];
    }
    r := m.(extra := extra[i := extra[i].(options := options)]);
    SameStripped(extra, i, options);
    SubnetsReplaced(extra, i, options, EcsOf(p));
    SetOptCount(m.extra, r.extra);
  }

  lemma SubnetsReplaced(extra: seq<Record>, i: nat, options: seq<EdnsOption>, ecs: Ecs)
    requires i < |extra| && extra[i].Opt?
    requires forall k :: 0 <= k < i && extra[k].Opt? ==> FirstInOptions(extra[k].options).None?
    requires SubnetsIn(options) == [ecs] + Tail(SubnetsIn(extra[i].options))
    requires SubnetsIn(extra[i].options) == [] ==> i == |extra| - 1
    ensures Subnets(extra[i := extra[i].(options := options)]) == [ecs] + Tail(Subnets(extra))
  {
    var now := extra[i := extra[i].(options := options)];
    NoSubnets(extra[..i]);
    SubnetsAround(extra, i);
    SubnetsAround(now, i);
    assert now[..i] == extra[..i] && now[i + 1..] == extra[i + 1..];
    FirstReplaced(SubnetsIn(extra[i].options), Subnets(extra[i + 1..]), ecs);
  }

  lemma FirstReplaced(own: seq<Ecs>, later: seq<Ecs>, ecs: Ecs)
    requires own == [] ==> later == []
    ensures [] + ([ecs] + Tail(own)) + later == [ecs] + Tail([] + own + later)
  {}

  /* How many OPT records there are. */

  function OptCount(extra: seq<Record>): nat {
    if extra == [] then 0 else (if extra[0].Opt? then 1 else 0) + OptCount(extra[1..])
  }

  lemma {:induction false} StrippedOptCount(extra: seq<Record>)
    ensures OptCount(StrippedExtra(extra)) == OptCount(extra)
  {
    if extra != [] {
      StrippedOptCount(extra[1..]);
      assert StrippedExtra(extra)[1..] == StrippedExtra(extra[1..]);
    }
  }

  lemma {:induction false} OptCountPush(extra: seq<Record>, r: Record)
    ensures OptCount(extra + [r]) == OptCount(extra) + (if r.Opt? then 1 else 0)
  {
    if extra != [] {
      OptCountPush(extra[1..], r);
      assert (extra + [r])[1..] == extra[1..] + [r];
    }
  }

  /** Setting the subnet adds an OPT record exactly when no subnet option is
      there and the last additional record is not an OPT record. */
  lemma SetOptCount(before: seq<Record>, after: seq<Record>)
    requires KeepsRest(before, after)
    ensures OptCount(after) == OptCount(before) + (if AddsRecord(before) then 1 else 0)
  {
    StrippedOptCount(before);
    StrippedOptCount(after);
    var kept := StrippedExtra(before);
    if AddsRecord(before) {
      OptCountPush(kept, Opt(0, 0, []));
    } else {
      assert kept + [] == kept;
    }
  }

  /** A message with at most one OPT record, as section 6.1.1 of RFC 6891
      demands, keeps at most one exactly unless it has one already and one is
      added. */
  lemma SecondOptRecord(before: seq<Record>, after: seq<Record>)
    requires KeepsRest(before, after)
    requires OptCount(before) <= 1
    ensures OptCount(after) <= 1 <==> !(AddsRecord(before) && OptCount(before) == 1)
  {
    SetOptCount(before, after);
  }

  /** An OPT record followed by another additional record is not found again. */
  lemma SecondOptHappens(after: seq<Record>)
    requires KeepsRest([Opt(1232, 0, []), Plain(250, 0, 0)], after)
    ensures OptCount([Opt(1232, 0, []), Plain(250, 0, 0)]) == 1 && OptCount(after) == 2
  {
    var before := [Opt(1232, 0, []), Plain(250, 0, 0)];
    assert before[1..] == [Plain(250, 0, 0)] && before[1..][1..] == [];
    assert FirstSubnet(before).None?;
    SetOptCount(before, after);
  }

  lemma SameStripped(extra: seq<Record>, i: nat, options: seq<EdnsOption>)
    requires i < |extra| && extra[i].Opt? && Stripped(options) == Stripped(extra[i].options)
    ensures StrippedExtra(extra[i := extra[i].(options := options)]) == StrippedExtra(extra)
  {}

  lemma StrippedMore(extra: seq<Record>)
    ensures StrippedExtra(extra + [Opt(0, 0, [])]) == StrippedExtra(extra) + [Opt(0, 0, [])]
  {}
}
