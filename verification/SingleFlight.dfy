/** One exchange per key at a time (dns/client.go, beginExchange, release,
    Exchange): a caller that finds a key locked waits for the owner's channel to
    be closed, looks into the cache once more, and then asks by itself. The
    lock map and the channels change by single atomic steps; releasing is two of
    them, deleting the key and then closing the channel. */
module SingleFlight {
  import opened Common

  type Key = nat

  /** Where a caller stands. `Looking(Some(c))` is the look into the cache of a
      caller that found channel c under its key. */
  datatype Pc =
    | Entering
    | Looking(found: Option<nat>)
    | Waiting(channel: nat)
    | Asking
    | Deleting
    | Closing
    | Finished

  /** `owner`: stored its own channel; `waits`: how often it has waited. */
  datatype Caller = Caller(key: Key, pc: Pc, owner: bool, waits: nat)

  /** A channel is named by the caller that made it; `closed` counts closes. */
  datatype State = State(callers: seq<Caller>, lock: map<Key, nat>, closed: seq<nat>)

  const EMPTY := State([], map[], [])

  datatype Label =
    | Arrive(key: Key)
    | Enter(who: nat)
    | Hit(who: nat)
    | Miss(who: nat, allowWait: bool)
    | Wake(who: nat, expired: bool)
    | Cancel(who: nat)
    | Answer(who: nat)
    | Delete(who: nat)
    | Close(who: nat)

  /** Ending an exchange: an owner still has to release its key. */
  function Ended(c: Caller): Caller {
    c.(pc := if c.owner then Deleting else Finished)
  }

  function With(s: State, who: nat, c: Caller): State
    requires who < |s.callers|
  {
    s.(callers := s.callers[who := c])
  }

  ghost predicate Step(s: State, l: Label, s': State) {
    match l
    case Arrive(key) =>
      s' == State(s.callers + [Caller(key, Entering, false, 0)], s.lock, s.closed + [0])
    case Enter(who) =>
      && who < |s.callers| && s.callers[who].pc == Entering
      && var c := s.callers[who];
         s' == if c.key in s.lock then With(s, who, c.(pc := Looking(Some(s.lock[c.key]))))
               else With(s, who, c.(pc := Looking(None), owner := true)).(lock := s.lock[c.key := who])
    case Hit(who) =>
      && who < |s.callers| && s.callers[who].pc.Looking? && s' == With(s, who, Ended(s.callers[who]))
    case Miss(who, allowWait) =>
      && who < |s.callers| && s.callers[who].pc.Looking?
      && var c := s.callers[who];
         s' == With(s, who,
                    match c.pc.found
                    case None => c.(pc := Asking)
                    case Some(channel) => if allowWait then c.(pc := Waiting(channel)) else c.(pc := Finished))
    case Wake(who, expired) =>
      && who < |s.callers| && s.callers[who].pc.Waiting?
      && s.callers[who].pc.channel < |s.closed| && s.closed[s.callers[who].pc.channel] > 0
      && var c := s.callers[who];
         s' == With(s, who, c.(pc := if expired then Finished else Looking(None), waits := c.waits + 1))
    case Cancel(who) =>
      && who < |s.callers| && s.callers[who].pc.Waiting? && s' == With(s, who, s.callers[who].(pc := Finished))
    case Answer(who) =>
      && who < |s.callers| && s.callers[who].pc == Asking && s' == With(s, who, Ended(s.callers[who]))
    case Delete(who) =>
      && who < |s.callers| && s.callers[who].pc == Deleting
      && s' == With(s, who, s.callers[who].(pc := Closing)).(lock := s.lock - {s.callers[who].key})
    case Close(who) =>
      && who < |s.callers| && s.callers[who].pc == Closing && who < |s.closed|
      && s' == With(s, who, s.callers[who].(pc := Finished)).(closed := s.closed[who := s.closed[who] + 1])
  }

  ghost predicate Run(states: seq<State>, labels: seq<Label>) {
    && |states| == |labels| + 1 && states[0] == EMPTY
    && forall i :: 0 <= i < |labels| ==> Step(states[i], labels[i], states[i + 1])
  }

  /* What every step keeps. */

  /** An owner that has not yet given the key back. */
  predicate Holds(c: Caller) {
    c.owner && !c.pc.Closing? && !c.pc.Finished?
  }

  /** A key is locked exactly while one owner has not given it back. */
  ghost predicate LockOk(callers: seq<Caller>, lock: map<Key, nat>) {
    && (forall k :: k in lock ==> lock[k] < |callers| && callers[lock[k]].key == k && Holds(callers[lock[k]]))
    && (forall i :: 0 <= i < |callers| && Holds(callers[i]) ==> callers[i].key in lock && lock[callers[i].key] == i)
  }

  /** Each caller by itself: an owner never waits, nobody has waited more than
      once, and only a caller that has not waited may still wait. */
  predicate CallerOk(c: Caller) {
    && c.waits <= 1
    && (c.owner ==> c.waits == 0 && !c.pc.Entering? && !c.pc.Waiting? && (c.pc.Looking? ==> c.pc.found.None?))
    && (c.pc.Entering? ==> c.waits == 0)
    && (c.pc.Looking? && c.pc.found.Some? ==> c.waits == 0)
    && (c.pc.Waiting? ==> c.waits == 0)
    && (!c.owner && (c.pc.Asking? || (c.pc.Looking? && c.pc.found.None?)) ==> c.waits == 1)
    && (c.pc.Deleting? || c.pc.Closing? ==> c.owner)
  }

  ghost predicate CallersOk(s: State) {
    forall i :: 0 <= i < |s.callers| ==> CallerOk(s.callers[i])
  }

  /** A channel is closed once, exactly when its owner is through. */
  ghost predicate ClosedOk(s: State) {
    && |s.closed| == |s.callers|
    && forall i :: 0 <= i < |s.callers| ==>
         s.closed[i] == if s.callers[i].owner && s.callers[i].pc.Finished? then 1 else 0
  }

  /** The channel a caller has found belongs to an owner of the same key. */
  predicate FoundOk(callers: seq<Caller>, c: Caller) {
    && (c.pc.Waiting? ==> c.pc.channel < |callers| && callers[c.pc.channel].owner && callers[c.pc.channel].key == c.key)
    && (c.pc.Looking? && c.pc.found.Some? ==>
          c.pc.found.value < |callers| && callers[c.pc.found.value].owner && callers[c.pc.found.value].key == c.key)
  }

  ghost predicate FoundsOk(s: State) {
    forall i :: 0 <= i < |s.callers| ==> FoundOk(s.callers, s.callers[i])
  }

  ghost predicate Inv(s: State) {
    LockOk(s.callers, s.lock) && CallersOk(s) && ClosedOk(s) && FoundsOk(s)
  }

  lemma StepCallers(s: State, l: Label, s': State)
    requires CallersOk(s) && Step(s, l, s')
    ensures CallersOk(s')
  {}

  lemma SameHold(callers: seq<Caller>, lock: map<Key, nat>, who: nat, c: Caller)
    requires LockOk(callers, lock) && who < |callers| && c.key == callers[who].key && Holds(c) == Holds(callers[who])
    ensures LockOk(callers[who := c], lock)
  {}

  lemma Locked(callers: seq<Caller>, lock: map<Key, nat>, who: nat, c: Caller)
    requires LockOk(callers, lock) && who < |callers| && c.key == callers[who].key && Holds(c) && c.key !in lock
    ensures LockOk(callers[who := c], lock[c.key := who])
  {}

  lemma Unlocked(callers: seq<Caller>, lock: map<Key, nat>, who: nat, c: Caller)
    requires LockOk(callers, lock) && who < |callers| && c.key == callers[who].key && Holds(callers[who]) && !Holds(c)
    ensures LockOk(callers[who := c], lock - {c.key})
  {}

  lemma StepLock(s: State, l: Label, s': State)
    requires LockOk(s.callers, s.lock) && CallersOk(s) && Step(s, l, s')
    ensures LockOk(s'.callers, s'.lock)
  {
    match l
    case Arrive(key) =>
    case Enter(who) =>
      if s.callers[who].key in s.lock {
        SameHold(s.callers, s.lock, who, s'.callers[who]);
      } else {
        Locked(s.callers, s.lock, who, s'.callers[who]);
      }
    case Hit(who) => SameHold(s.callers, s.lock, who, s'.callers[who]);
    case Miss(who, _) => SameHold(s.callers, s.lock, who, s'.callers[who]);
    case Wake(who, _) => SameHold(s.callers, s.lock, who, s'.callers[who]);
    case Cancel(who) => SameHold(s.callers, s.lock, who, s'.callers[who]);
    case Answer(who) => SameHold(s.callers, s.lock, who, s'.callers[who]);
    case Delete(who) => Unlocked(s.callers, s.lock, who, s'.callers[who]);
    case Close(who) => SameHold(s.callers, s.lock, who, s'.callers[who]);
  }

  lemma StepClosed(s: State, l: Label, s': State)
    requires ClosedOk(s) && CallersOk(s) && Step(s, l, s')
    ensures ClosedOk(s')
  {}

  /** Owners stay owners of the same key. */
  lemma StepOwners(s: State, l: Label, s': State, i: nat)
    requires Step(s, l, s') && i < |s.callers|
    ensures i < |s'.callers| && s'.callers[i].key == s.callers[i].key && (s.callers[i].owner ==> s'.callers[i].owner)
  {}

  lemma StepFounds(s: State, l: Label, s': State)
    requires LockOk(s.callers, s.lock) && FoundsOk(s) && Step(s, l, s')
    ensures FoundsOk(s')
  {
    forall i | 0 <= i < |s'.callers| ensures FoundOk(s'.callers, s'.callers[i]) {
      if i < |s.callers| {
        StepFound(s, l, s', i);
      }
    }
  }

  lemma StepFound(s: State, l: Label, s': State, i: nat)
    requires LockOk(s.callers, s.lock) && FoundsOk(s) && Step(s, l, s') && i < |s.callers|
    ensures i < |s'.callers| && FoundOk(s'.callers, s'.callers[i])
  {
    var c, c' := s.callers[i], s'.callers[i];
    assert FoundOk(s.callers, c);
    if c'.pc.Waiting? {
      StepOwners(s, l, s', c'.pc.channel);
    } else if c'.pc.Looking? && c'.pc.found.Some? {
      StepOwners(s, l, s', c'.pc.found.value);
    }
  }

  lemma {:induction false} RunInv(states: seq<State>, labels: seq<Label>, i: nat)
    requires Run(states, labels) && i < |states|
    ensures Inv(states[i])
    decreases i
  {
    if i > 0 {
      RunInv(states, labels, i - 1);
      StepCallers(states[i - 1], labels[i - 1], states[i]);
      StepLock(states[i - 1], labels[i - 1], states[i]);
      StepClosed(states[i - 1], labels[i - 1], states[i]);
      StepFounds(states[i - 1], labels[i - 1], states[i]);
    }
  }

  /* The theorems. */

  /** In every interleaving a key is in the lock map exactly while one caller
      owns it and has not released it, and never two do. */
  lemma OneOwner(states: seq<State>, labels: seq<Label>, n: nat, k: Key)
    requires Run(states, labels) && n < |states|
    ensures var s := states[n];
            && (k in s.lock <==> exists i :: 0 <= i < |s.callers| && s.callers[i].key == k && Holds(s.callers[i]))
            && (forall i, j :: 0 <= i < j < |s.callers| && s.callers[i].key == s.callers[j].key == k ==>
                  !(Holds(s.callers[i]) && Holds(s.callers[j])))
  {
    RunInv(states, labels, n);
  }

  /** Every channel is closed at most once, an owner's exactly when its exchange
      is over, whichever way it ended. */
  lemma ClosedOnce(states: seq<State>, labels: seq<Label>, n: nat, i: nat)
    requires Run(states, labels) && n < |states| && i < |states[n].callers|
    ensures i < |states[n].closed| && states[n].closed[i] <= 1
    ensures states[n].closed[i] == 1 <==> states[n].callers[i].owner && states[n].callers[i].pc.Finished?
  {
    RunInv(states, labels, n);
  }

  /** Nobody waits twice. */
  lemma WaitsOnce(states: seq<State>, labels: seq<Label>, n: nat, i: nat)
    requires Run(states, labels) && n < |states| && i < |states[n].callers|
    ensures states[n].callers[i].waits <= 1
    ensures states[n].callers[i].pc.Waiting? ==> states[n].callers[i].waits == 0
  {
    RunInv(states, labels, n);
    assert CallerOk(states[n].callers[i]);
  }

  /** Of the callers that ask the transport for one key at the same time, at
      most one has not waited for an earlier exchange first. */
  lemma OneUnwaitedAsks(states: seq<State>, labels: seq<Label>, n: nat, i: nat, j: nat)
    requires Run(states, labels) && n < |states| && i < |states[n].callers| && j < |states[n].callers|
    requires states[n].callers[i].pc.Asking? && states[n].callers[j].pc.Asking? && states[n].callers[i].key == states[n].callers[j].key
    requires states[n].callers[i].waits == 0 && states[n].callers[j].waits == 0
    ensures i == j
  {
    RunInv(states, labels, n);
    assert CallerOk(states[n].callers[i]) && CallerOk(states[n].callers[j]);
  }

  /** No caller waits in vain: the channel it waits for is closed, or its owner
      is itself on the way to closing it and not waiting for anyone. */
  lemma NoStuckWaiter(states: seq<State>, labels: seq<Label>, n: nat, i: nat)
    requires Run(states, labels) && n < |states| && i < |states[n].callers| && states[n].callers[i].pc.Waiting?
    ensures var s := states[n];
            var channel := s.callers[i].pc.channel;
            && channel < |s.callers| && channel < |s.closed|
            && (s.closed[channel] > 0 || (s.callers[channel].owner && !s.callers[channel].pc.Finished? && !s.callers[channel].pc.Waiting?))
  {
    RunInv(states, labels, n);
    assert FoundOk(states[n].callers, states[n].callers[i]);
    assert CallerOk(states[n].callers[states[n].callers[i].pc.channel]);
  }

  /** A caller can always take a step of its own, except while it waits for a
      channel that is still open. */
  lemma StepEnabled(s: State, i: nat) returns (l: Label, s': State)
    requires Inv(s) && i < |s.callers| && !s.callers[i].pc.Finished?
    requires s.callers[i].pc.Waiting? ==> s.closed[s.callers[i].pc.channel] > 0
    ensures Step(s, l, s') && !l.Arrive?
  {
    var c := s.callers[i];
    match c.pc
    case Entering =>
      l := Enter(i);
      s' := if c.key in s.lock then With(s, i, c.(pc := Looking(Some(s.lock[c.key]))))
            else With(s, i, c.(pc := Looking(None), owner := true)).(lock := s.lock[c.key := i]);
    case Looking(_) => l, s' := Hit(i), With(s, i, Ended(c));
    case Waiting(channel) => l, s' := Wake(i, true), With(s, i, c.(pc := Finished, waits := c.waits + 1));
    case Asking => l, s' := Answer(i), With(s, i, Ended(c));
    case Deleting => l, s' := Delete(i), With(s, i, c.(pc := Closing)).(lock := s.lock - {c.key});
    case Closing => l, s' := Close(i), With(s, i, c.(pc := Finished)).(closed := s.closed[i := s.closed[i] + 1]);
  }

  /** As long as some caller is not finished, some step other than an arrival
      is possible: the exchanges never block one another for good. */
  lemma NeverStuck(states: seq<State>, labels: seq<Label>, n: nat, i: nat) returns (l: Label, s': State)
    requires Run(states, labels) && n < |states| && i < |states[n].callers| && !states[n].callers[i].pc.Finished?
    ensures Step(states[n], l, s') && !l.Arrive?
  {
    RunInv(states, labels, n);
    var s := states[n];
    if s.callers[i].pc.Waiting? && s.closed[s.callers[i].pc.channel] == 0 {
      NoStuckWaiter(states, labels, n, i);
      l, s' := StepEnabled(s, s.callers[i].pc.channel);
    } else {
      l, s' := StepEnabled(s, i);
    }
  }

  /* Every exchange ends. */

  function Rank(c: Caller): nat {
    match c.pc
    case Entering => 8
    case Looking(found) => if found.Some? then 7 else 5
    case Waiting(_) => 6
    case Asking => 4
    case Deleting => 3
    case Closing => 2
    case Finished => 0
  }

  function Total(callers: seq<Caller>): nat {
    if callers == [] then 0 else Total(callers[..|callers| - 1]) + Rank(callers[|callers| - 1])
  }

  lemma {:induction false} TotalUpdate(callers: seq<Caller>, who: nat, c: Caller)
    requires who < |callers|
    ensures Total(callers[who := c]) == Total(callers) - Rank(callers[who]) + Rank(c)
    decreases |callers|
  {
    var last := |callers| - 1;
    if who < last {
      TotalUpdate(callers[..last], who, c);
      assert callers[who := c][..last] == callers[..last][who := c];
    } else {
      assert callers[who := c][..last] == callers[..last];
    }
  }

  lemma StepFalls(s: State, l: Label, s': State)
    requires Step(s, l, s')
    ensures Total(s'.callers) + 1 <= Total(s.callers) + (if l.Arrive? then 9 else 0)
  {
    if l.Arrive? {
      assert s'.callers[..|s.callers|] == s.callers;
    } else {
      TotalUpdate(s.callers, l.who, s'.callers[l.who]);
    }
  }

  function Arrivals(labels: seq<Label>): nat {
    if labels == [] then 0 else Arrivals(labels[..|labels| - 1]) + (if labels[|labels| - 1].Arrive? then 1 else 0)
  }

  /** A run takes at most eight steps for each caller, besides its arrival. */
  lemma {:induction false} BoundedWork(states: seq<State>, labels: seq<Label>)
    requires Run(states, labels)
    ensures |labels| + Total(states[|labels|].callers) <= 9 * Arrivals(labels)
    decreases |labels|
  {
    if labels != [] {
      var last := |labels| - 1;
      BoundedWork(states[..last + 1], labels[..last]);
      StepFalls(states[last], labels[last], states[last + 1]);
    }
  }

  /* The steps on the live maps. */

  class Exchanges {
    var callers: seq<Caller>
    var lock: map<Key, nat>
    var closed: seq<nat>

    ghost function Abs(): State
      reads this
    {
      State(callers, lock, closed)
    }

    constructor ()
      ensures Abs() == EMPTY && Inv(Abs())
    {
      callers, lock, closed := [], map[], [];
    }

    ghost predicate Stepped(before: State, l: Label)
      reads this
    {
      Step(before, l, Abs()) && Inv(Abs())
    }

    lemma StepInv(s: State, l: Label, s': State)
      requires Inv(s) && Step(s, l, s')
      ensures Inv(s')
    {
      StepCallers(s, l, s');
      StepLock(s, l, s');
      StepClosed(s, l, s');
      StepFounds(s, l, s');
    }

    method NewCaller(key: Key) returns (who: nat)
      requires Inv(Abs())
      modifies this
      ensures Stepped(old(Abs()), Arrive(key)) && who == |old(callers)|
    {
      who := |callers|;
      callers, closed := callers + [Caller(key, Entering, false, 0)], closed + [0];
      StepInv(old(Abs()), Arrive(key), Abs());
    }

    /** LoadOrStore of the caller's own channel under its key. */
    method LoadOrStore(who: nat)
      requires Inv(Abs()) && who < |callers| && callers[who].pc.Entering?
      modifies this
      ensures Stepped(old(Abs()), Enter(who))
    {
      var c := callers[who];
      if c.key in lock {
        callers := callers[who := c.(pc := Looking(Some(lock[c.key])))];
      } else {
        callers := callers[who := c.(pc := Looking(None), owner := true)];
        lock := lock[c.key := who];
      }
      StepInv(old(Abs()), Enter(who), Abs());
    }

    /** One turn of the loop: a look into the cache and what follows from it. */
    method Look(who: nat, hit: bool, allowWait: bool)
      requires Inv(Abs()) && who < |callers| && callers[who].pc.Looking?
      modifies this
      ensures Stepped(old(Abs()), if hit then Hit(who) else Miss(who, allowWait))
    {
      var c := callers[who];
      if hit {
        callers := callers[who := if c.owner then c.(pc := Deleting) else c.(pc := Finished)];
      } else if c.pc.found.None? {
        callers := callers[who := c.(pc := Asking)];
      } else if !allowWait {
        callers := callers[who := c.(pc := Finished)];
      } else {
        callers := callers[who := c.(pc := Waiting(c.pc.found.value))];
      }
      StepInv(old(Abs()), if hit then Hit(who) else Miss(who, allowWait), Abs());
    }

    /** The channel the caller waits for has been closed. */
    static ghost predicate Signalled(s: State, who: nat)
      requires who < |s.callers| && s.callers[who].pc.Waiting?
    {
      s.callers[who].pc.channel < |s.closed| && s.closed[s.callers[who].pc.channel] > 0
    }

    /** The channel was closed, or the caller's context ended first. */
    method Resume(who: nat, expired: bool) returns (woken: bool)
      requires Inv(Abs()) && who < |callers| && callers[who].pc.Waiting?
      modifies this
      ensures woken <==> Signalled(old(Abs()), who)
      ensures woken ==> Stepped(old(Abs()), Wake(who, expired))
      ensures !woken && expired ==> Stepped(old(Abs()), Cancel(who))
      ensures !woken && !expired ==> Abs() == old(Abs())
    {
      var c := callers[who];
      assert FoundOk(callers, c) && CallerOk(c);
      if closed[c.pc.channel] > 0 {
        callers := callers[who := c.(pc := if expired then Finished else Looking(None), waits := c.waits + 1)];
        StepInv(old(Abs()), Wake(who, expired), Abs());
        return true;
      }
      if expired {
        callers := callers[who := c.(pc := Finished)];
        StepInv(old(Abs()), Cancel(who), Abs());
      }
      return false;
    }

    method Finish(who: nat)
      requires Inv(Abs()) && who < |callers| && callers[who].pc.Asking?
      modifies this
      ensures Stepped(old(Abs()), Answer(who))
    {
      var c := callers[who];
      callers := callers[who := if c.owner then c.(pc := Deleting) else c.(pc := Finished)];
      StepInv(old(Abs()), Answer(who), Abs());
    }

    /** The first half of a release: the key is free for the next caller. */
    method DeleteKey(who: nat)
      requires Inv(Abs()) && who < |callers| && callers[who].pc.Deleting?
      modifies this
      ensures Stepped(old(Abs()), Delete(who))
    {
      lock := lock - {callers[who].key};
      callers := callers[who := callers[who].(pc := Closing)];
      StepInv(old(Abs()), Delete(who), Abs());
    }

    /** The second half: everyone that found the channel is woken. */
    method CloseChannel(who: nat)
      requires Inv(Abs()) && who < |callers| && callers[who].pc.Closing?
      modifies this
      ensures Stepped(old(Abs()), Close(who))
    {
      closed := closed[who := closed[who] + 1];
      callers := callers[who := callers[who].(pc := Finished)];
      StepInv(old(Abs()), Close(who), Abs());
    }
  }
}
