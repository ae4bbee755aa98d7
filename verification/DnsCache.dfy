/** The in-memory DNS cache: what may be stored under a key, where every stored
    response came from, and how long it is served (dns/client.go). Times are in
    nanoseconds; the clock and the environment hash of a transport are read from
    outside. */
module DnsCache {
  import opened Common
  import opened DnsMessage
  import opened ClientSubnet

  const SECOND := 1_000_000_000

  datatype Strategy = AsIs | PreferV4 | PreferV6 | V4Only | V6Only

  datatype QueryOptions = QueryOptions(removeSubnet: bool, subnet: Prefix, strategy: Strategy, rewriteTtl: Option<nat>, disableCache: bool)

  datatype Key = Key(question: Question, transport: string, subnet: Prefix, environment: nat)

  datatype Entry = Entry(message: Msg, expireAt: int)

  /** The subnet part of a key. */
  function KeySubnet(options: QueryOptions, configured: Prefix, m: Msg): Prefix {
    if options.removeSubnet then NO_PREFIX
    else if Valid(options.subnet) then options.subnet
    else if Valid(configured) then configured
    else SubnetKey(m)
  }

  /** The subnet option of the message comes from the client that asked. */
  predicate Forwarded(options: QueryOptions, configured: Prefix) {
    !options.removeSubnet && !Valid(options.subnet) && !Valid(configured)
  }

  predicate Configurable(p: Prefix) {
    Valid(p) ==> WellFormed(p)
  }

  /** A request the cache may answer: one question, nothing else but an OPT
      record with subnet options only. */
  predicate Simple(m: Msg) {
    && |m.question| == 1 && |m.ns| == 0
    && (|m.extra| == 0
        || (|m.extra| == 1 && m.extra[0].Opt? && m.extra[0].size > 0 && m.extra[0].ttl == 0
            && forall k :: 0 <= k < |m.extra[0].options| ==> m.extra[0].options[k].Subnet?))
  }

  /** What a prepared message carries: no subnet option at all, the one asked
      for in place of its first one, or what the client sent. */
  ghost predicate PreparedFor(m: Msg, prepared: Msg, options: QueryOptions, configured: Prefix) {
    && prepared == m.(extra := prepared.extra)
    && (if options.removeSubnet then Subnets(prepared.extra) == []
        else if Valid(options.subnet) then
          WellFormed(options.subnet) && Subnets(prepared.extra) == [EcsOf(options.subnet)] + Tail(Subnets(m.extra))
        else if Valid(configured) then
          WellFormed(configured) && Subnets(prepared.extra) == [EcsOf(configured)] + Tail(Subnets(m.extra))
        else prepared == m)
  }

  /** Every subnet option of a message means this very subnet; without an
      option there is none. */
  ghost predicate CarriesOnly(m: Msg, p: Prefix) {
    && (Subnets(m.extra) == [] ==> p == NO_PREFIX)
    && forall k :: 0 <= k < |Subnets(m.extra)| ==> Meaning(Subnets(m.extra)[k]) == Some(p)
  }

  /** All subnet options of the message after the first mean this subnet. */
  ghost predicate LaterMean(m: Msg, p: Prefix) {
    forall k :: 0 <= k < |Tail(Subnets(m.extra))| ==> Meaning(Tail(Subnets(m.extra))[k]) == Some(p)
  }

  /** What the request must be like: its subnet options are removed; or those
      after the first agree with the subnet asked for; or, when the client's own
      are forwarded, all agree and the first is no IPv4-mapped IPv6 one. */
  ghost predicate Unambiguous(m: Msg, options: QueryOptions, configured: Prefix) {
    if options.removeSubnet then true
    else if Valid(options.subnet) then LaterMean(m, options.subnet)
    else if Valid(configured) then LaterMean(m, configured)
    else
      Subnets(m.extra) != [] ==>
        var first := Subnets(m.extra)[0];
        Meaning(first).Some? && !(first.family == 2 && Mapped(first.address)) && LaterMean(m, Meaning(first).value)
  }

  /** The key's subnet is the one that every subnet option of the message sent
      means, section 6 of RFC 7871, exactly when the request is unambiguous. */
  lemma KeySubnetIsActual(m: Msg, prepared: Msg, options: QueryOptions, configured: Prefix)
    requires PreparedFor(m, prepared, options, configured)
    ensures CarriesOnly(prepared, KeySubnet(options, configured, prepared)) <==> Unambiguous(m, options, configured)
  {
    if options.removeSubnet {
    } else if Valid(options.subnet) {
      EcsOfMeans(options.subnet);
      ReplacedMeans(Subnets(m.extra), Subnets(prepared.extra), options.subnet);
    } else if Valid(configured) {
      EcsOfMeans(configured);
      ReplacedMeans(Subnets(m.extra), Subnets(prepared.extra), configured);
    } else {
      ForwardedMeans(m);
    }
  }

  lemma ReplacedMeans(before: seq<Ecs>, after: seq<Ecs>, p: Prefix)
    requires WellFormed(p) && after == [EcsOf(p)] + Tail(before) && Meaning(EcsOf(p)) == Some(p)
    ensures (forall k :: 0 <= k < |after| ==> Meaning(after[k]) == Some(p))
            <==> (forall k :: 0 <= k < |Tail(before)| ==> Meaning(Tail(before)[k]) == Some(p))
  {
    assert forall k :: 0 <= k < |Tail(before)| ==> after[k + 1] == Tail(before)[k];
    assert forall k :: 0 < k < |after| ==> after[k] == Tail(before)[k - 1];
  }

  lemma ForwardedMeans(m: Msg)
    ensures CarriesOnly(m, SubnetKey(m)) <==>
              (Subnets(m.extra) != [] ==>
                 var first := Subnets(m.extra)[0];
                 Meaning(first).Some? && !(first.family == 2 && Mapped(first.address)) && LaterMean(m, Meaning(first).value))
  {
    FirstIsHead(m.extra);
    var all := Subnets(m.extra);
    if all != [] {
      var first := all[0];
      assert CarriesOnly(m, SubnetKey(m)) <==> Meaning(first) == Some(KeyPrefix(first)) && LaterMean(m, KeyPrefix(first)) by {
        assert forall k :: 0 < k < |all| ==> all[k] == Tail(all)[k - 1];
        assert forall k :: 0 <= k < |Tail(all)| ==> all[k + 1] == Tail(all)[k];
      }
      if Meaning(first).Some? {
        KeyIsMeaning(first);
      }
    }
  }

  /** A message with at most one subnet option, which means something, is
      ambiguous only by forwarding an IPv4-mapped IPv6 one. */
  lemma SingleOptionIsActual(m: Msg, prepared: Msg, options: QueryOptions, configured: Prefix)
    requires PreparedFor(m, prepared, options, configured)
    requires |Subnets(m.extra)| <= 1 && forall k :: 0 <= k < |Subnets(m.extra)| ==> Meaning(Subnets(m.extra)[k]).Some?
    ensures CarriesOnly(prepared, KeySubnet(options, configured, prepared)) <==>
              !(Forwarded(options, configured) && |Subnets(m.extra)| == 1
                && Subnets(m.extra)[0].family == 2 && Mapped(Subnets(m.extra)[0].address))
  {
    KeySubnetIsActual(m, prepared, options, configured);
  }

  /** With two subnet options a configured subnet replaces the first only: the
      message sent still names the second, under a key that does not. */
  lemma SecondOptionStays(m: Msg, prepared: Msg, options: QueryOptions)
    requires m.extra == [Opt(1232, 0, [Subnet(Ecs(1, 24, [192, 0, 2, 0])), Subnet(Ecs(1, 24, [198, 51, 100, 0]))])]
    requires options.subnet == Prefix(V4([203, 0, 113, 0]), 24) && !options.removeSubnet
    requires PreparedFor(m, prepared, options, NO_PREFIX)
    ensures KeySubnet(options, NO_PREFIX, prepared) == Prefix(V4([203, 0, 113, 0]), 24)
    ensures Subnets(prepared.extra) == [Ecs(1, 24, [203, 0, 113, 0]), Ecs(1, 24, [198, 51, 100, 0])]
    ensures !CarriesOnly(prepared, KeySubnet(options, NO_PREFIX, prepared))
  {
    TwoSubnets(1232, Ecs(1, 24, [192, 0, 2, 0]), Ecs(1, 24, [198, 51, 100, 0]));
    var sent := Subnets(prepared.extra);
    assert Meaning(sent[1]) != Some(KeySubnet(options, NO_PREFIX, prepared));
  }

  /** Forwarded requests that differ in their second option share a key. */
  lemma SecondOptionShares(a: Msg, b: Msg, options: QueryOptions)
    requires a.extra == [Opt(1232, 0, [Subnet(Ecs(1, 24, [192, 0, 2, 0])), Subnet(Ecs(1, 24, [198, 51, 100, 0]))])]
    requires b.extra == [Opt(1232, 0, [Subnet(Ecs(1, 24, [192, 0, 2, 0])), Subnet(Ecs(1, 24, [203, 0, 113, 0]))])]
    requires Forwarded(options, NO_PREFIX)
    ensures KeySubnet(options, NO_PREFIX, a) == KeySubnet(options, NO_PREFIX, b) && Subnets(a.extra) != Subnets(b.extra)
  {
    TwoSubnets(1232, Ecs(1, 24, [192, 0, 2, 0]), Ecs(1, 24, [198, 51, 100, 0]));
    TwoSubnets(1232, Ecs(1, 24, [192, 0, 2, 0]), Ecs(1, 24, [203, 0, 113, 0]));
    FirstIsHead(a.extra);
    FirstIsHead(b.extra);
    assert Subnets(a.extra)[1] != Subnets(b.extra)[1] by {
      assert Subnets(a.extra)[1].address[0] != Subnets(b.extra)[1].address[0];
    }
  }

  lemma TwoSubnets(size: nat, a: Ecs, b: Ecs)
    ensures Subnets([Opt(size, 0, [Subnet(a), Subnet(b)])]) == [a, b]
  {
    var options := [Subnet(a), Subnet(b)];
    var last := options[1..];
    assert last == [Subnet(b)] && last[1..] == [];
    assert SubnetsIn(last) == [b];
    assert SubnetsIn(options) == [a] + [b];
    var extra := [Opt(size, 0, options)];
    assert extra[1..] == [];
    assert Subnets(extra) == SubnetsIn(options) + [];
  }

  /** A lookup builds its key from the bare question, before preparing the
      message; the subnet is the same. */
  lemma LookupKeyAgrees(m: Msg, prepared: Msg, options: QueryOptions, configured: Prefix)
    requires m.extra == [] && PreparedFor(m, prepared, options, configured)
    ensures KeySubnet(options, configured, m) == KeySubnet(options, configured, prepared)
  {}

  /* Preparing a response. */

  const IPV4_HINT := 4
  const IPV6_HINT := 6

  function Kept(hints: seq<nat>, dropped: nat): (r: seq<nat>)
    ensures forall h :: h in r <==> h in hints && h != dropped
  {
    if hints == [] then []
    else
      assert hints == [hints[0]] + hints[1..];
      (if hints[0] == dropped then [] else [hints[0]]) + Kept(hints[1..], dropped)
  }

  function WithoutHints(r: Record, strategy: Strategy): Record {
    if r.Https? then Https(r.ttl, Kept(r.hints, if strategy == V4Only then IPV6_HINT else IPV4_HINT), r.rest) else r
  }

  /** Address hints of the family the strategy forbids are taken out of HTTPS answers. */
  function Filtered(q: Question, m: Msg, options: QueryOptions): Msg {
    if q.qtype == TYPE_HTTPS && (options.strategy == V4Only || options.strategy == V6Only)
    then m.(answer := seq(|m.answer|, k requires 0 <= k < |m.answer| => WithoutHints(m.answer[k], options.strategy)))
    else m
  }

  ghost predicate Ttl(q: Question, m: Msg, options: QueryOptions, ttl: nat) {
    if options.rewriteTtl.Some? then ttl == options.rewriteTtl.value else TimeToLive(Filtered(q, m, options), ttl)
  }

  method ApplyResponseOptions(q: Question, m: Msg, options: QueryOptions) returns (r: Msg, ttl: nat)
    ensures Ttl(q, m, options, ttl) && r == Normalized(Filtered(q, m, options), ttl) && Carries(r, ttl)
  {
    r := m;
    if q.qtype == TYPE_HTTPS && (options.strategy == V4Only || options.strategy == V6Only) {
      var answer: seq<Record> := [];
      for i := 0 to |m.answer|
        invariant |answer| == i && forall k :: 0 <= k < i ==> answer[k] == WithoutHints(m.answer[k], options.strategy)
      {
        answer := answer + [WithoutHints(m.answer[i], options.strategy)];
      }
      r := m.(answer := answer);
    }
    assert r == Filtered(q, m, options);
    ttl := ComputeTimeToLive(r);
    if options.rewriteTtl.Some? {
      ttl := options.rewriteTtl.value;
    }
    r := NormalizeTTL(r, ttl);
  }

  /* Where an entry came from. */

  /** One completed exchange with a transport. */
  datatype Origin = Origin(
    transport: string, asked: Msg, sent: Msg, options: QueryOptions, response: Msg, checker: Option<Msg -> bool>,
    environment: nat, storedAt: int, ttl: nat)

  ghost predicate Cacheable(rcode: nat) {
    rcode == SUCCESS || rcode == NAME_ERROR
  }

  /** The response is accepted: there is no checker, or it is a Success or
      NXDOMAIN response the checker agrees to. */
  ghost predicate Accepted(checker: Option<Msg -> bool>, response: Msg) {
    checker.Some? ==> Cacheable(response.rcode) && checker.value(response)
  }

  /** The entry under k is, but for times to live and HTTPS hints, an accepted
      Success or NXDOMAIN response of transport k.transport to a message with
      question k.question and subnet k.subnet, stored under the environment
      current at that moment. */
  ghost predicate ComesFrom(k: Key, e: Entry, o: Origin, configured: Prefix) {
    && o.transport == k.transport
    && PreparedFor(o.asked, o.sent, o.options, configured) && o.sent.question == [k.question]
    && k.subnet == KeySubnet(o.options, configured, o.sent)
    && o.environment == k.environment
    && Cacheable(o.response.rcode) && Accepted(o.checker, o.response)
    && o.ttl > 0 && Ttl(k.question, o.response, o.options, o.ttl)
    && e.message == Normalized(Filtered(k.question, o.response, o.options), o.ttl)
    && e.expireAt == o.storedAt + o.ttl * SECOND
  }

  /** What the transport is asked, and the key its answer may be stored under. */
  datatype Operation = Operation(transport: string, asked: Msg, sent: Msg, options: QueryOptions, disableCache: bool, key: Key)

  ghost predicate KeyFits(op: Operation, configured: Prefix) {
    && PreparedFor(op.asked, op.sent, op.options, configured)
    && op.key.transport == op.transport && op.sent.question == [op.key.question]
    && op.key.subnet == KeySubnet(op.options, configured, op.sent)
  }

  datatype Begun = Looping | Fixed(rcode: nat) | Ready(op: Operation)

  const FORMAT_ERROR := 1
  const TYPE_A := 1
  const TYPE_AAAA := 28

  /** The question asks for addresses the strategy excludes. */
  predicate Forbidden(qtype: nat, strategy: Strategy) {
    (qtype == TYPE_A && strategy == V6Only) || (qtype == TYPE_AAAA && strategy == V4Only)
  }

  datatype Served = Served(message: Msg, ttl: nat, stale: bool)

  class Client {
    const disableCache: bool
    const disableExpire: bool
    const optimisticTimeout: nat
    const clientSubnet: Prefix
    var cache: map<Key, Entry>
    ghost var origins: map<Key, Origin>

    ghost predicate Consistent()
      reads this
    {
      forall k :: k in cache ==> k in origins && ComesFrom(k, cache[k], origins[k], clientSubnet)
    }

    constructor (disableCache: bool, disableExpire: bool, optimisticTimeout: nat, clientSubnet: Prefix)
      ensures Consistent() && cache == map[] && this.clientSubnet == clientSubnet
      ensures this.disableCache == disableCache && this.disableExpire == disableExpire && this.optimisticTimeout == optimisticTimeout
    {
      this.disableCache, this.disableExpire, this.optimisticTimeout, this.clientSubnet :=
        disableCache, disableExpire, optimisticTimeout, clientSubnet;
      cache, origins := map[], map[];
    }

    method PrepareExchangeMessage(m: Msg, options: QueryOptions) returns (r: Msg)
      requires Configurable(options.subnet) && Configurable(clientSubnet)
      ensures PreparedFor(m, r, options, clientSubnet)
    {
      if options.removeSubnet {
        r := RemoveClientSubnet(m);
        return;
      }
      var subnet := options.subnet;
      if !Valid(subnet) {
        subnet := clientSubnet;
      }
      r := m;
      if Valid(subnet) {
        r := SetClientSubnet(m, subnet);
      }
    }

    method NewCacheKey(transport: string, question: Question, m: Msg, options: QueryOptions, environment: nat) returns (k: Key)
      ensures k == Key(question, transport, KeySubnet(options, clientSubnet, m), environment)
    {
      var subnet := NO_PREFIX;
      if !options.removeSubnet {
        subnet := options.subnet;
        if !Valid(subnet) {
          subnet := clientSubnet;
        }
        if !Valid(subnet) {
          subnet := ClientSubnetFromMessage(m);
        }
      }
      k := Key(question, transport, subnet, environment);
    }

    /** The part of an exchange before the cache and the transport are asked: a
        transport that is already being asked is a loop, and a message without a
        question or of the forbidden family is answered at once. */
    method BeginExchange(transport: string, stack: seq<string>, m: Msg, options: QueryOptions, environment: nat) returns (r: Begun)
      requires Configurable(options.subnet) && Configurable(clientSubnet)
      ensures r.Looping? <==> transport in stack
      ensures r == Fixed(FORMAT_ERROR) <==> transport !in stack && |m.question| == 0
      ensures r == Fixed(SUCCESS) <==> transport !in stack && |m.question| > 0 && Forbidden(m.question[0].qtype, options.strategy)
      ensures r.Fixed? ==> r.rcode == FORMAT_ERROR || r.rcode == SUCCESS
      ensures r.Ready? ==>
                && r.op.transport == transport && r.op.asked == m && r.op.options == options
                && PreparedFor(m, r.op.sent, options, clientSubnet) && |r.op.sent.question| > 0
                && (r.op.disableCache <==> !Simple(m) || disableCache || options.disableCache)
                && (!r.op.disableCache ==> KeyFits(r.op, clientSubnet) && r.op.key.environment == environment)
    {
      var i := 0;
      while i < |stack|
        invariant 0 <= i <= |stack| && transport !in stack[..i]
      {
        if stack[i] == transport {
          return Looping;
        }
        i := i + 1;
      }
      if |m.question| == 0 {
        return Fixed(FORMAT_ERROR);
      }
      if Forbidden(m.question[0].qtype, options.strategy) {
        return Fixed(SUCCESS);
      }
      var sent := PrepareExchangeMessage(m, options);
      var disabled := !Simple(m) || disableCache || options.disableCache;
      var key := NewCacheKey(transport, m.question[0], sent, options, environment);
      if Simple(m) {
        assert m.question == [m.question[0]];
      }
      return Ready(Operation(transport, m, sent, options, disabled, key));
    }

    /** A key taken before the network was known takes the environment of now;
        a key of another environment must not be stored under. */
    method FinishCacheKey(k: Key, environment: nat) returns (r: Key, storable: bool)
      ensures storable <==> k.environment == environment || k.environment == 0
      ensures storable ==> r == k.(environment := environment)
    {
      if environment == k.environment || k.environment == 0 {
        return k.(environment := environment), true;
      }
      return k, false;
    }

    method StoreCache(k: Key, m: Msg, ttl: nat, now: int, ghost o: Origin)
      requires Consistent()
      requires ttl > 0 ==> ComesFrom(k, Entry(m, now + ttl * SECOND), o, clientSubnet)
      modifies this
      ensures Consistent()
      ensures ttl == 0 ==> cache == old(cache)
      ensures ttl > 0 ==> cache == old(cache)[k := Entry(m, now + ttl * SECOND)]
      ensures forall other :: other in old(cache) && other != k ==> other in origins && origins[other] == old(origins)[other]
    {
      if ttl == 0 {
        return;
      }
      cache := cache[k := Entry(m, now + ttl * SECOND)];
      origins := origins[k := o];
    }

    static ghost predicate Storable(k: Key, environment: nat) {
      k.environment == environment || k.environment == 0
    }

    /** What a response leaves in the cache. */
    ghost predicate StoredAs(before: map<Key, Entry>, k: Key, options: QueryOptions, response: Msg, environment: nat, now: int)
      reads this
    {
      exists ttl: nat ::
        && Ttl(k.question, response, options, ttl)
        && cache == if ttl == 0 then before
                    else before[k.(environment := environment) :=
                                Entry(Normalized(Filtered(k.question, response, options), ttl), now + ttl * SECOND)]
    }

    /** What was learned under any other environment is neither added to,
        replaced nor lost. */
    ghost predicate KeepsOthers(before: map<Key, Entry>, environment: nat)
      reads this
    {
      forall k: Key | k.environment != environment ::
        && (k in cache <==> k in before)
        && (k in before ==> cache[k] == before[k])
    }

    /** A response is stored exactly when caching is on for the request, the
        response is cacheable and accepted, and the environment did not change;
        a rejected response never is. */
    method FinishExchange(op: Operation, response: Msg, checker: Option<Msg -> bool>, environment: nat, now: int)
      returns (r: Result<Msg, string>)
      requires Consistent() && (!op.disableCache ==> KeyFits(op, clientSubnet)) && |op.sent.question| > 0
      modifies this
      ensures Consistent()
      ensures r.Ok? <==> Accepted(checker, response)
      ensures !(Accepted(checker, response) && Cacheable(response.rcode) && !op.disableCache && Storable(op.key, environment))
              ==> cache == old(cache)
      ensures Accepted(checker, response) && Cacheable(response.rcode) && !op.disableCache && Storable(op.key, environment)
              ==> StoredAs(old(cache), op.key, op.options, response, environment, now)
      ensures KeepsOthers(old(cache), environment)
      ensures r.Ok? ==> exists ttl :: Ttl(op.sent.question[0], response, op.options, ttl)
                          && r.value == EdnsAdjusted(op.sent, Normalized(Filtered(op.sent.question[0], response, op.options), ttl).(id := op.sent.id))
    {
      var cacheable := response.rcode == SUCCESS || response.rcode == NAME_ERROR;
      if checker.Some? {
        if !cacheable || !checker.value(response) {
          return Err("response rejected");
        }
      }
      var question := op.sent.question[0];
      var message, ttl := ApplyResponseOptions(question, response, op.options);
      if !op.disableCache && cacheable {
        var key, storable := FinishCacheKey(op.key, environment);
        if storable {
          StoreCache(key, message, ttl, now,
                     Origin(op.transport, op.asked, op.sent, op.options, response, checker, environment, now, ttl));
        }
      }
      return Ok(EdnsAdjusted(op.sent, message.(id := op.sent.id)));
    }

    /** A background refresh stores under the same conditions. */
    method FinishRefresh(op: Operation, response: Msg, checker: Option<Msg -> bool>, environment: nat, now: int)
      requires Consistent() && KeyFits(op, clientSubnet)
      modifies this
      ensures Consistent()
      ensures !(Accepted(checker, response) && Cacheable(response.rcode) && Storable(op.key, environment)) ==> cache == old(cache)
      ensures Accepted(checker, response) && Cacheable(response.rcode) && Storable(op.key, environment)
              ==> StoredAs(old(cache), op.key, op.options, response, environment, now)
      ensures KeepsOthers(old(cache), environment)
    {
      var cacheable := response.rcode == SUCCESS || response.rcode == NAME_ERROR;
      if checker.Some? {
        if !cacheable || !checker.value(response) {
          return;
        }
      } else if !cacheable {
        return;
      }
      var key, storable := FinishCacheKey(op.key, environment);
      if !storable {
        return;
      }
      var message, ttl := ApplyResponseOptions(op.key.question, response, op.options);
      StoreCache(key, message, ttl, now,
                 Origin(op.transport, op.asked, op.sent, op.options, response, checker, environment, now, ttl));
    }

    /** Served only while fresh, with the whole seconds left on every record; or
        stale, with one second, while the optimistic timeout runs; afterwards
        the entry is gone. */
    method LoadResponse(k: Key, now: int) returns (r: Option<Served>)
      requires Consistent()
      modifies `cache
      ensures Consistent()
      ensures k !in old(cache) ==> r.None? && cache == old(cache)
      ensures k in old(cache) && disableExpire ==> r == Some(Served(old(cache)[k].message, 0, false)) && cache == old(cache)
      ensures k in old(cache) && !disableExpire ==>
                var o := origins[k];
                var end, answer := o.storedAt + o.ttl * SECOND, Filtered(k.question, o.response, o.options);
                && (now <= end ==>
                      && r.Some? && !r.value.stale && r.value.ttl == (end - now) / SECOND && cache == old(cache)
                      && r.value.message == Normalized(answer, r.value.ttl) && Carries(r.value.message, r.value.ttl))
                && (end < now < end + optimisticTimeout ==>
                      && r.Some? && r.value.stale && cache == old(cache)
                      && r.value.message == Normalized(answer, 1) && Carries(r.value.message, 1))
                && (end < now && end + optimisticTimeout <= now ==> r.None? && cache == old(cache) - {k})
    {
      if k !in cache {
        return None;
      }
      var entry := cache[k];
      if disableExpire {
        return Some(Served(entry.message, 0, false));
      }
      ghost var answer := Filtered(k.question, origins[k].response, origins[k].options);
      if now > entry.expireAt {
        if optimisticTimeout > 0 && now < entry.expireAt + optimisticTimeout {
          var stale := NormalizeTTL(entry.message, 1);
          NormalizedTwice(answer, origins[k].ttl, 1);
          return Some(Served(stale, 0, true));
        }
        cache := cache - {k};
        return None;
      }
      var left := (entry.expireAt - now) / SECOND;
      var fresh' := NormalizeTTL(entry.message, left);
      NormalizedTwice(answer, origins[k].ttl, left);
      return Some(Served(fresh', left, false));
    }

    /** Eviction and clearing drop entries and touch no other. */
    method Drop(keys: set<Key>)
      requires Consistent()
      modifies `cache
      ensures Consistent() && cache == old(cache) - keys
    {
      cache := cache - keys;
    }
  }

  /** What is stored under a key answers a message that named the key's subnet
      and no other, exactly when the request was unambiguous. */
  lemma EntryAnswersKey(k: Key, e: Entry, o: Origin, configured: Prefix)
    requires ComesFrom(k, e, o, configured)
    ensures CarriesOnly(o.sent, k.subnet) <==> Unambiguous(o.asked, o.options, configured)
  {
    KeySubnetIsActual(o.asked, o.sent, o.options, configured);
  }
}
