/** DNS messages as far as the client's cache looks into them, and the
    time-to-live arithmetic over their records (dns/client.go). */
module DnsMessage {
  import opened Common

  datatype Question = Question(name: string, qtype: nat, qclass: nat)

  /** The content of a client subnet option. */
  datatype Ecs = Ecs(family: nat, mask: nat, address: seq<nat>)

  datatype EdnsOption = Subnet(ecs: Ecs) | Padding | OtherOption(code: nat)

  /** A resource record: the kinds the client tells apart, and all others. */
  datatype Record =
    | Opt(size: nat, ttl: nat, options: seq<EdnsOption>)
    | Soa(ttl: nat, minimum: nat)
    | Https(ttl: nat, hints: seq<nat>, rest: nat)
    | Plain(rrtype: nat, ttl: nat, data: nat)

  datatype Msg = Msg(id: nat, rcode: nat, question: seq<Question>, answer: seq<Record>, ns: seq<Record>, extra: seq<Record>)

  const SUCCESS := 0
  const NAME_ERROR := 3
  const TYPE_HTTPS := 65

  function Records(m: Msg): seq<Record> {
    m.answer + m.ns + m.extra
  }

  /* The time to live of a response. */

  /** t is the least positive time to live among the records, 0 if none is positive. */
  ghost predicate LeastPositive(records: seq<Record>, t: nat) {
    && (forall k :: 0 <= k < |records| && !records[k].Opt? && records[k].ttl > 0 ==> 0 < t <= records[k].ttl)
    && (t > 0 ==> exists k :: 0 <= k < |records| && !records[k].Opt? && records[k].ttl == t)
  }

  lemma LeastPositiveUnique(records: seq<Record>, a: nat, b: nat)
    requires LeastPositive(records, a) && LeastPositive(records, b)
    ensures a == b
  {
    if a > 0 {
      var k :| 0 <= k < |records| && !records[k].Opt? && records[k].ttl == a;
    }
    if b > 0 {
      var k :| 0 <= k < |records| && !records[k].Opt? && records[k].ttl == b;
    }
  }

  /** The first SOA record of the authority section decides a negative answer. */
  ghost predicate FirstSoa(ns: seq<Record>, k: nat) {
    k < |ns| && ns[k].Soa? && forall j :: 0 <= j < k ==> !ns[j].Soa?
  }

  ghost predicate NoSoa(ns: seq<Record>) {
    forall j :: 0 <= j < |ns| ==> !ns[j].Soa?
  }

  /** Section 5 of RFC 2308 for a response without answers but with a SOA, the
      least positive record otherwise. */
  ghost predicate TimeToLive(m: Msg, t: nat) {
    if m.answer == [] && !NoSoa(m.ns)
    then exists k: nat :: FirstSoa(m.ns, k) && t == if m.ns[k].ttl < m.ns[k].minimum then m.ns[k].ttl else m.ns[k].minimum
    else LeastPositive(Records(m), t)
  }

  method ExtractNegativeTTL(m: Msg) returns (ttl: nat, found: bool)
    ensures found <==> !NoSoa(m.ns)
    ensures found ==> exists k: nat :: FirstSoa(m.ns, k) && ttl == if m.ns[k].ttl < m.ns[k].minimum then m.ns[k].ttl else m.ns[k].minimum
  {
    for i := 0 to |m.ns|
      invariant forall j :: 0 <= j < i ==> !m.ns[j].Soa?
    {
      if m.ns[i].Soa? {
        assert FirstSoa(m.ns, i);
        if m.ns[i].ttl < m.ns[i].minimum {
          return m.ns[i].ttl, true;
        }
        return m.ns[i].minimum, true;
      }
    }
    return 0, false;
  }

  lemma LeastStep(records: seq<Record>, r: Record, t: nat)
    requires LeastPositive(records, t)
    ensures LeastPositive(records + [r], if r.Opt? then t else if t == 0 || (r.ttl > 0 && r.ttl < t) then r.ttl else t)
  {
    var longer := records + [r];
    assert longer[|records|] == r;
    if t > 0 {
      var k :| 0 <= k < |records| && !records[k].Opt? && records[k].ttl == t;
      assert longer[k] == records[k];
    }
    assert forall k :: 0 <= k < |records| ==> longer[k] == records[k];
  }

  method ComputeTimeToLive(m: Msg) returns (ttl: nat)
    ensures TimeToLive(m, ttl)
  {
    ttl := 0;
    if |m.answer| == 0 {
      var soa, found := ExtractNegativeTTL(m);
      if found {
        return soa;
      }
    }
    var all := Records(m);
    for i := 0 to |all|
      invariant LeastPositive(all[..i], ttl)
    {
      LeastStep(all[..i], all[i], ttl);
      assert all[..i + 1] == all[..i] + [all[i]];
      if !all[i].Opt? {
        if ttl == 0 || (all[i].ttl > 0 && all[i].ttl < ttl) {
          ttl := all[i].ttl;
        }
      }
    }
    assert all[..|all|] == all;
  }

  /* Setting the time to live. */

  function WithTtl(r: Record, t: nat): Record {
    match r
    case Opt(_, _, _) => r
    case Soa(_, minimum) => Soa(t, minimum)
    case Https(_, hints, rest) => Https(t, hints, rest)
    case Plain(rrtype, _, data) => Plain(rrtype, t, data)
  }

  function AllWithTtl(records: seq<Record>, t: nat): (r: seq<Record>)
    ensures |r| == |records|
    ensures forall k :: 0 <= k < |r| ==> r[k] == WithTtl(records[k], t)
  {
    seq(|records|, k requires 0 <= k < |records| => WithTtl(records[k], t))
  }

  function Normalized(m: Msg, t: nat): Msg {
    m.(answer := AllWithTtl(m.answer, t), ns := AllWithTtl(m.ns, t), extra := AllWithTtl(m.extra, t))
  }

  /** Every record but OPT carries the time to live. */
  ghost predicate Carries(m: Msg, t: nat) {
    forall k :: 0 <= k < |Records(m)| && !Records(m)[k].Opt? ==> Records(m)[k].ttl == t
  }

  lemma NormalizedCarries(m: Msg, t: nat)
    ensures Carries(Normalized(m, t), t)
  {
    var n, all, now := Normalized(m, t), Records(m), Records(Normalized(m, t));
    forall k | 0 <= k < |now| ensures now[k] == WithTtl(all[k], t) {
      if k < |m.answer| {
        assert now[k] == n.answer[k];
      } else if k < |m.answer| + |m.ns| {
        assert now[k] == n.ns[k - |m.answer|];
      } else {
        assert now[k] == n.extra[k - |m.answer| - |m.ns|];
      }
    }
  }

  /** Nothing but times to live is lost by setting them. */
  lemma NormalizedTwice(m: Msg, s: nat, t: nat)
    ensures Normalized(Normalized(m, s), t) == Normalized(m, t)
  {}

  method NormalizeRecords(records: seq<Record>, t: nat) returns (r: seq<Record>)
    ensures r == AllWithTtl(records, t)
  {
    r := [];
    for i := 0 to |records|
      invariant |r| == i && forall k :: 0 <= k < i ==> r[k] == WithTtl(records[k], t)
    {
      r := r + [WithTtl(records[i], t)];
    }
  }

  method NormalizeTTL(m: Msg, t: nat) returns (r: Msg)
    ensures r == Normalized(m, t) && Carries(r, t)
  {
    var answer := NormalizeRecords(m.answer, t);
    var ns := NormalizeRecords(m.ns, t);
    var extra := NormalizeRecords(m.extra, t);
    r := m.(answer := answer, ns := ns, extra := extra);
    NormalizedCarries(m, t);
  }

  /* The OPT record of an answer. */

  /** The OPT record of a message is the last one. */
  function LastOpt(extra: seq<Record>): (r: Option<Record>)
    ensures r.Some? ==> r.value.Opt? && r.value in extra
  {
    if extra == [] then None
    else if extra[|extra| - 1].Opt? then Some(extra[|extra| - 1])
    else LastOpt(extra[..|extra| - 1])
  }

  /** Version and DO flag are kept in the time to live, section 6.1.3 of RFC 6891. */
  function Version(ttl: nat): nat {
    ttl / 65536 % 256
  }

  predicate DnssecOk(ttl: nat) {
    ttl / 32768 % 2 == 1
  }

  function WithoutOpts(extra: seq<Record>): (r: seq<Record>)
    ensures forall x :: x in r ==> !x.Opt?
  {
    if extra == [] then []
    else WithoutOpts(extra[..|extra| - 1]) + (if extra[|extra| - 1].Opt? then [] else [extra[|extra| - 1]])
  }

  function PlainOpt(size: nat, dnssec: bool): (r: Record)
    ensures r.Opt? && r.size == size && Version(r.ttl) == 0 && (DnssecOk(r.ttl) <==> dnssec)
  {
    Opt(size, if dnssec then 32768 else 0, [])
  }

  /** The additional records of the answer given to the client, who sent an OPT
      record of this version or none. */
  function EdnsExtra(asked: Option<nat>, extra: seq<Record>): seq<Record> {
    match LastOpt(extra)
    case None => extra
    case Some(got) =>
      if asked.None? then WithoutOpts(extra)
      else if asked.value < Version(got.ttl) then WithoutOpts(extra) + [PlainOpt(got.size, DnssecOk(got.ttl))]
      else extra
  }

  function EdnsVersion(m: Msg): Option<nat> {
    match LastOpt(m.extra) case None => None case Some(r) => Some(Version(r.ttl))
  }

  function EdnsAdjusted(request: Msg, response: Msg): Msg {
    response.(extra := EdnsExtra(EdnsVersion(request), response.extra))
  }

  lemma {:induction false} NoOptLeft(extra: seq<Record>)
    ensures LastOpt(WithoutOpts(extra)).None? && WithoutOpts(WithoutOpts(extra)) == WithoutOpts(extra)
    ensures LastOpt(extra).None? ==> WithoutOpts(extra) == extra
  {
    if extra != [] {
      var front, last := extra[..|extra| - 1], extra[|extra| - 1];
      NoOptLeft(front);
      assert extra == front + [last];
      if !last.Opt? {
        assert WithoutOpts(extra)[..|WithoutOpts(extra)| - 1] == WithoutOpts(front);
      } else {
        assert WithoutOpts(extra) == WithoutOpts(front);
      }
    }
  }

  lemma OptAppended(kept: seq<Record>, added: Record)
    requires added.Opt?
    ensures LastOpt(kept + [added]) == Some(added) && WithoutOpts(kept + [added]) == WithoutOpts(kept)
  {
    assert (kept + [added])[..|kept|] == kept;
  }

  /** The client gets an OPT record exactly when it sent one and the server
      answered with one; size and DO flag are the server's, the version is at
      most the client's, and nothing but OPT records changes. */
  lemma EdnsFits(asked: Option<nat>, extra: seq<Record>)
    ensures var got, given := LastOpt(extra), LastOpt(EdnsExtra(asked, extra));
            && WithoutOpts(EdnsExtra(asked, extra)) == WithoutOpts(extra)
            && (given.Some? <==> asked.Some? && got.Some?)
            && (given.Some? ==>
                  && given.value.size == got.value.size && Version(given.value.ttl) <= asked.value
                  && (DnssecOk(given.value.ttl) <==> DnssecOk(got.value.ttl)))
  {
    NoOptLeft(extra);
    if LastOpt(extra).Some? && asked.Some? {
      var got := LastOpt(extra).value;
      OptAppended(WithoutOpts(extra), PlainOpt(got.size, DnssecOk(got.ttl)));
    }
  }
}
