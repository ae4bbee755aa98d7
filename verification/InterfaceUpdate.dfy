/**
 The default-interface hand-off of route/network.go: `notifyInterfaceUpdate`
 marks a reset as pending and dispatches an update goroutine, `updateInterface`
 claims the pending reset unless it was superseded. Every section under a mutex,
 and every stretch between two of them, is one step.
 */
module InterfaceUpdate {
  import opened Common

  datatype Ending = Superseded | InterfaceGone | Completed(reset: bool)

  /** How far an `updateInterface` goroutine has come. */
  datatype Stage = Waiting | Entered | Looking | Reading | Claiming | Resetting | Ended(ending: Ending)

  datatype Update = Update(stage: Stage, cancelled: bool)

  /** The notifications numbered `from` to `to` were answered by one reset. */
  datatype Claim = Claim(update: nat, from: nat, to: nat)

  /**
   `notified` counts the notifications and `claims` records the resets; both are
   history. `found` tells whether the latest notification, or the start, led to a
   dispatch that found a default interface.
   */
  datatype Net = Net(
    pending: bool,
    started: bool,
    stopped: bool,
    current: Option<nat>,
    updates: seq<Update>,
    holder: Option<nat>,
    found: bool,
    notified: nat,
    claims: seq<Claim>)

  const INIT := Net(false, false, false, None, [], None, false, 0, [])

  function Covered(claims: seq<Claim>): nat {
    if claims == [] then 0 else claims[|claims| - 1].to
  }

  // ----- the steps

  function CancelOne(us: seq<Update>, u: Option<nat>): seq<Update> {
    if u.Some? && u.value < |us| then us[u.value := us[u.value].(cancelled := true)] else us
  }

  /** `dispatchInterfaceUpdateLocked`: a new goroutine supersedes the current one. */
  function Dispatch(n: Net, found: bool): Net {
    if !found then n.(found := false)
    else n.(updates := CancelOne(n.updates, n.current) + [Update(Waiting, n.stopped)],
            current := Some(|n.updates|), found := true)
  }

  /** `notifyInterfaceUpdate`. */
  function Notify(n: Net, found: bool): Net {
    var n1 := n.(pending := true, notified := n.notified + 1);
    if n.started then Dispatch(n1, found) else n1.(found := false)
  }

  /** The post-start stage. */
  function Start(n: Net, found: bool): Net {
    Dispatch(n.(started := true), found)
  }

  function CancelEvery(us: seq<Update>): (r: seq<Update>)
    ensures |r| == |us| && forall u :: 0 <= u < |us| ==> r[u] == us[u].(cancelled := true)
  {
    seq(|us|, u requires 0 <= u < |us| => us[u].(cancelled := true))
  }

  /** The scope closes: every update context is a child of the started one. */
  function Stop(n: Net): Net {
    n.(stopped := true, updates := CancelEvery(n.updates))
  }

  function At(n: Net, u: nat, stage: Stage): Net
    requires u < |n.updates|
  {
    n.(updates := n.updates[u := n.updates[u].(stage := stage)])
  }

  function Leave(n: Net, u: nat, ending: Ending): Net
    requires u < |n.updates|
  {
    At(n, u, Ended(ending)).(holder := None)
  }

  /** One step of the update goroutine `u`; `present` is whether the platform
      still knows the interface. */
  function Advance(n: Net, u: nat, present: bool): Net
    requires u < |n.updates|
  {
    var cancelled := n.updates[u].cancelled;
    match n.updates[u].stage
    case Waiting => At(n, u, Entered).(holder := Some(u))
    case Entered => if cancelled then Leave(n, u, Superseded) else At(n, u, Looking)
    case Looking => if !present then Leave(n, u, InterfaceGone) else At(n, u, Reading)
    case Reading => if cancelled then Leave(n, u, Superseded) else At(n, u, Claiming)
    case Claiming =>
      if cancelled then Leave(n, u, Superseded)
      else if !n.pending then Leave(n, u, Completed(false))
      else At(n, u, Resetting).(pending := false, claims := n.claims + [Claim(u, Covered(n.claims), n.notified)])
    case Resetting => Leave(n, u, Completed(true))
    case Ended(_) => n
  }

  /** The mutex lets a goroutine in only when nobody holds it. */
  predicate CanAdvance(n: Net, u: nat) {
    u < |n.updates| && !n.updates[u].stage.Ended? && (n.updates[u].stage.Waiting? ==> n.holder.None?)
  }

  datatype Label = DoNotify(found: bool) | DoStart(found: bool) | DoStop | DoAdvance(update: nat, present: bool)

  predicate Step(n: Net, l: Label, n': Net) {
    match l
    case DoNotify(found) => n' == Notify(n, found)
    case DoStart(found) => !n.started && n' == Start(n, found)
    case DoStop => n' == Stop(n)
    case DoAdvance(u, present) => CanAdvance(n, u) && n' == Advance(n, u, present)
  }

  ghost predicate Run(states: seq<Net>, labels: seq<Label>) {
    && |states| == |labels| + 1 && states[0] == INIT
    && forall i :: 0 <= i < |labels| ==> Step(states[i], labels[i], states[i + 1])
  }

  // ----- what every run keeps

  predicate Inside(s: Stage) {
    s.Entered? || s.Looking? || s.Reading? || s.Claiming? || s.Resetting?
  }

  /** The goroutine that holds the mutex is the only one inside the body. */
  ghost predicate Exclusive(us: seq<Update>, holder: Option<nat>) {
    && (holder.Some? ==> holder.value < |us|)
    && forall u :: 0 <= u < |us| ==> (Inside(us[u].stage) <==> holder == Some(u))
  }

  /** Only the latest update can still claim. */
  ghost predicate OneCurrent(us: seq<Update>, current: Option<nat>, stopped: bool) {
    && (if current.Some? then current.value == |us| - 1 else us == [])
    && (forall u :: 0 <= u < |us| ==> (us[u].cancelled <==> stopped || u < |us| - 1))
  }

  /** The claims cut the notifications into consecutive stretches. */
  ghost predicate ClaimsOk(claims: seq<Claim>, notified: nat, pending: bool) {
    && (forall i :: 0 <= i < |claims| ==> claims[i].from < claims[i].to)
    && (forall i :: 0 <= i < |claims| - 1 ==> claims[i].to == claims[i + 1].from)
    && (claims != [] ==> claims[0].from == 0)
    && Covered(claims) <= notified
    && (pending <==> Covered(claims) < notified)
  }

  /** An update that has claimed, or has found nothing to claim. */
  predicate Past(s: Stage) {
    s.Resetting? || (s.Ended? && s.ending.Completed?)
  }

  /** The update of the latest dispatch leaves nothing pending. */
  ghost predicate Settles(us: seq<Update>, live: bool, pending: bool) {
    live ==>
      && us != []
      && (Past(us[|us| - 1].stage) ==> !pending)
      && us[|us| - 1].stage != Ended(Superseded)
  }

  ghost predicate Inv(n: Net) {
    && Exclusive(n.updates, n.holder)
    && OneCurrent(n.updates, n.current, n.stopped)
    && ClaimsOk(n.claims, n.notified, n.pending)
    && Settles(n.updates, n.found && !n.stopped, n.pending)
  }

  lemma DispatchUpdates(us: seq<Update>, holder: Option<nat>, current: Option<nat>, stopped: bool, pending: bool)
    requires Exclusive(us, holder) && OneCurrent(us, current, stopped)
    ensures var vs := CancelOne(us, current) + [Update(Waiting, stopped)];
            && Exclusive(vs, holder) && OneCurrent(vs, Some(|us|), stopped)
            && Settles(vs, !stopped, pending)
  {}

  lemma DispatchInv(n: Net, found: bool)
    requires Exclusive(n.updates, n.holder) && OneCurrent(n.updates, n.current, n.stopped)
    requires ClaimsOk(n.claims, n.notified, n.pending)
    ensures Inv(Dispatch(n, found))
  {
    DispatchUpdates(n.updates, n.holder, n.current, n.stopped, n.pending);
  }

  lemma NotifyInv(n: Net, found: bool)
    requires Inv(n)
    ensures Inv(Notify(n, found))
  {
    var n1 := n.(pending := true, notified := n.notified + 1);
    if n.started { DispatchInv(n1, found); }
  }

  function WithStage(us: seq<Update>, u: nat, stage: Stage): seq<Update>
    requires u < |us|
  {
    us[u := us[u].(stage := stage)]
  }

  lemma StageCurrent(us: seq<Update>, current: Option<nat>, stopped: bool, u: nat, stage: Stage)
    requires OneCurrent(us, current, stopped) && u < |us|
    ensures OneCurrent(WithStage(us, u, stage), current, stopped)
  {}

  /** Entering, moving on inside, and leaving. */
  lemma StageExclusive(us: seq<Update>, holder: Option<nat>, u: nat, stage: Stage, holder': Option<nat>)
    requires Exclusive(us, holder) && u < |us| && (holder.None? || holder == Some(u))
    requires if Inside(stage) then holder' == Some(u) else holder'.None?
    ensures Exclusive(WithStage(us, u, stage), holder')
  {}

  lemma StageSettles(us: seq<Update>, live: bool, pending: bool, u: nat, stage: Stage, pending': bool)
    requires Settles(us, live, pending) && u < |us|
    requires pending' ==> pending
    requires live && u == |us| - 1 && Past(stage) ==> !pending'
    requires live && u == |us| - 1 ==> stage != Ended(Superseded)
    ensures Settles(WithStage(us, u, stage), live, pending')
  {}

  lemma ClaimOk(claims: seq<Claim>, notified: nat, u: nat)
    requires ClaimsOk(claims, notified, true)
    ensures ClaimsOk(claims + [Claim(u, Covered(claims), notified)], notified, false)
  {}

  lemma AtInv(n: Net, u: nat, stage: Stage, holder: Option<nat>)
    requires Inv(n) && u < |n.updates| && (n.holder.None? || n.holder == Some(u))
    requires if Inside(stage) then holder == Some(u) else holder.None?
    requires n.found && !n.stopped && u == |n.updates| - 1 ==>
               (Past(stage) ==> !n.pending) && stage != Ended(Superseded)
    ensures Inv(At(n, u, stage).(holder := holder))
  {
    StageCurrent(n.updates, n.current, n.stopped, u, stage);
    StageExclusive(n.updates, n.holder, u, stage, holder);
    StageSettles(n.updates, n.found && !n.stopped, n.pending, u, stage, n.pending);
  }

  lemma ClaimInv(n: Net, u: nat)
    requires Inv(n) && u < |n.updates| && n.holder == Some(u) && n.pending
    ensures Inv(At(n, u, Resetting).(pending := false, claims := n.claims + [Claim(u, Covered(n.claims), n.notified)]))
  {
    StageCurrent(n.updates, n.current, n.stopped, u, Resetting);
    StageExclusive(n.updates, n.holder, u, Resetting, n.holder);
    StageSettles(n.updates, n.found && !n.stopped, n.pending, u, Resetting, false);
    ClaimOk(n.claims, n.notified, u);
  }

  lemma LatestAlive(n: Net, u: nat)
    requires Inv(n) && u < |n.updates| && n.updates[u].cancelled
    ensures !(n.found && !n.stopped && u == |n.updates| - 1)
  {}

  lemma AdvanceInv(n: Net, u: nat, present: bool)
    requires Inv(n) && CanAdvance(n, u)
    ensures Inv(Advance(n, u, present))
  {
    var cancelled := n.updates[u].cancelled;
    if cancelled { LatestAlive(n, u); }
    match n.updates[u].stage
    case Waiting => AtInv(n, u, Entered, Some(u));
    case Entered => if cancelled { AtInv(n, u, Ended(Superseded), None); } else { AtInv(n, u, Looking, Some(u)); }
    case Looking => if present { AtInv(n, u, Reading, Some(u)); } else { AtInv(n, u, Ended(InterfaceGone), None); }
    case Reading => if cancelled { AtInv(n, u, Ended(Superseded), None); } else { AtInv(n, u, Claiming, Some(u)); }
    case Claiming =>
      if cancelled { AtInv(n, u, Ended(Superseded), None); }
      else if n.pending { ClaimInv(n, u); }
      else { AtInv(n, u, Ended(Completed(false)), None); }
    case Resetting => AtInv(n, u, Ended(Completed(true)), None);
  }

  lemma StepInv(n: Net, l: Label, n': Net)
    requires Inv(n) && Step(n, l, n')
    ensures Inv(n')
  {
    match l
    case DoNotify(found) => NotifyInv(n, found);
    case DoStart(found) => DispatchInv(n.(started := true), found);
    case DoStop =>
    case DoAdvance(u, present) => AdvanceInv(n, u, present);
  }

  lemma {:induction false} RunInv(states: seq<Net>, labels: seq<Label>, i: nat)
    requires Run(states, labels) && i < |states|
    ensures Inv(states[i])
  {
    if i > 0 {
      RunInv(states, labels, i - 1);
      StepInv(states[i - 1], labels[i - 1], states[i]);
    }
  }

  // ----- the theorems

  /** Update bodies never overlap. */
  lemma BodiesExclusive(states: seq<Net>, labels: seq<Label>, i: nat, u: nat, v: nat)
    requires Run(states, labels) && i < |states| && u < |states[i].updates| && v < |states[i].updates|
    requires Inside(states[i].updates[u].stage) && Inside(states[i].updates[v].stage)
    ensures u == v
  {
    RunInv(states, labels, i);
  }

  lemma {:induction false} ClaimsAscend(claims: seq<Claim>, i: nat, j: nat)
    requires i < j < |claims|
    requires forall k :: 0 <= k < |claims| ==> claims[k].from < claims[k].to
    requires forall k :: 0 <= k < |claims| - 1 ==> claims[k].to == claims[k + 1].from
    ensures claims[i].to <= claims[j].from
  {
    if i + 1 < j { ClaimsAscend(claims, i, j - 1); }
  }

  /** A notification is answered by at most one reset. */
  lemma ClaimedOnce(states: seq<Net>, labels: seq<Label>, i: nat, j: nat, k: nat, notification: nat)
    requires Run(states, labels) && i < |states| && j < k < |states[i].claims|
    requires states[i].claims[j].from <= notification < states[i].claims[j].to
    ensures !(states[i].claims[k].from <= notification < states[i].claims[k].to)
  {
    RunInv(states, labels, i);
    ClaimsAscend(states[i].claims, j, k);
  }

  lemma OtherStepsKeepClaims(n: Net, l: Label, n': Net)
    requires Step(n, l, n') && n'.claims != n.claims
    ensures l.DoAdvance? && n.updates[l.update].stage.Claiming? && !n.updates[l.update].cancelled && n.pending
    ensures n'.claims == n.claims + [Claim(l.update, Covered(n.claims), n.notified)] && !n'.pending
  {}

  /** A reset is claimed only by the latest update, and only while it is not
      cancelled; it answers every notification that was still pending. */
  lemma OnlyCurrentClaims(states: seq<Net>, labels: seq<Label>, i: nat)
    requires Run(states, labels) && i < |labels| && states[i + 1].claims != states[i].claims
    ensures labels[i].DoAdvance? && labels[i].update == |states[i].updates| - 1
    ensures states[i].pending && !states[i + 1].pending
    ensures states[i + 1].claims == states[i].claims + [Claim(labels[i].update, Covered(states[i].claims), states[i].notified)]
    ensures Covered(states[i + 1].claims) == states[i].notified
  {
    RunInv(states, labels, i);
    OtherStepsKeepClaims(states[i], labels[i], states[i + 1]);
  }

  ghost predicate Quiescent(n: Net) {
    forall u :: 0 <= u < |n.updates| ==> n.updates[u].stage.Ended?
  }

  /**
   No notification is lost: once everything has come to rest after a dispatch
   that found a default interface, and neither shutdown nor a vanished interface
   cut its update short, every notification has been answered by a reset.
   */
  lemma NothingLost(states: seq<Net>, labels: seq<Label>, i: nat)
    requires Run(states, labels) && i < |states| && Quiescent(states[i])
    requires states[i].found && !states[i].stopped
    requires states[i].updates != [] ==> states[i].updates[|states[i].updates| - 1].stage != Ended(InterfaceGone)
    ensures !states[i].pending && Covered(states[i].claims) == states[i].notified
  {
    RunInv(states, labels, i);
    var n := states[i];
    assert n.updates[|n.updates| - 1].stage.Ended?;
  }

  /** A goroutine that has not ended can always move, or waits for one that can. */
  lemma NeverStuck(states: seq<Net>, labels: seq<Label>, i: nat, u: nat)
    requires Run(states, labels) && i < |states| && u < |states[i].updates| && !states[i].updates[u].stage.Ended?
    ensures exists v :: CanAdvance(states[i], v)
  {
    RunInv(states, labels, i);
    var n := states[i];
    if !CanAdvance(n, u) {
      assert CanAdvance(n, n.holder.value);
    }
  }

  // ----- the manager itself

  class NetworkManager {
    var networkResetPending: bool
    var started: bool
    var stopped: bool
    var interfaceUpdateCancel: Option<nat>
    var updates: seq<Update>
    var resetRunHolder: Option<nat>
    ghost var found: bool
    ghost var notified: nat
    ghost var claims: seq<Claim>

    ghost function Abs(): Net
      reads this
    {
      Net(networkResetPending, started, stopped, interfaceUpdateCancel, updates, resetRunHolder, found, notified, claims)
    }

    constructor ()
      ensures Abs() == INIT && Inv(Abs())
    {
      networkResetPending, started, stopped := false, false, false;
      interfaceUpdateCancel, updates, resetRunHolder := None, [], None;
      found, notified, claims := false, 0, [];
    }

    method DispatchInterfaceUpdateLocked(defaultInterface: bool)
      requires Exclusive(updates, resetRunHolder) && OneCurrent(updates, interfaceUpdateCancel, stopped)
      requires ClaimsOk(claims, notified, networkResetPending)
      modifies this
      ensures Abs() == Dispatch(old(Abs()), defaultInterface) && Inv(Abs())
    {
      DispatchInv(Abs(), defaultInterface);
      found := defaultInterface;
      if defaultInterface {
        var latest := |updates|;
        updates := CancelOne(updates, interfaceUpdateCancel);
        interfaceUpdateCancel := Some(latest);
        updates := updates + [Update(Waiting, stopped)];
      }
    }

    method NotifyInterfaceUpdate(defaultInterface: bool)
      requires Inv(Abs())
      modifies this
      ensures Abs() == Notify(old(Abs()), defaultInterface) && Inv(Abs())
    {
      NotifyInv(Abs(), defaultInterface);
      networkResetPending := true;
      notified := notified + 1;
      if started {
        DispatchInterfaceUpdateLocked(defaultInterface);
      } else {
        found := false;
      }
    }

    /** The update mutex is taken. */
    method EnterUpdate(u: nat)
      requires Inv(Abs()) && CanAdvance(Abs(), u) && updates[u].stage == Waiting
      modifies this
      ensures Abs() == Advance(old(Abs()), u, true) && Inv(Abs())
    {
      AdvanceInv(Abs(), u, true);
      resetRunHolder := Some(u);
      updates := updates[u := updates[u].(stage := Entered)];
    }

    /** A test of the update context. */
    method CheckContext(u: nat)
      requires Inv(Abs()) && CanAdvance(Abs(), u) && (updates[u].stage == Entered || updates[u].stage == Reading)
      modifies this
      ensures Abs() == Advance(old(Abs()), u, true) && Inv(Abs())
    {
      AdvanceInv(Abs(), u, true);
      if updates[u].cancelled {
        updates := updates[u := updates[u].(stage := Ended(Superseded))];
        resetRunHolder := None;
      } else {
        updates := updates[u := updates[u].(stage := if updates[u].stage == Entered then Looking else Claiming)];
      }
    }

    /** The platform may no longer know the interface. */
    method LookUpInterface(u: nat, present: bool)
      requires Inv(Abs()) && CanAdvance(Abs(), u) && updates[u].stage == Looking
      modifies this
      ensures Abs() == Advance(old(Abs()), u, present) && Inv(Abs())
    {
      AdvanceInv(Abs(), u, present);
      if present {
        updates := updates[u := updates[u].(stage := Reading)];
      } else {
        updates := updates[u := updates[u].(stage := Ended(InterfaceGone))];
        resetRunHolder := None;
      }
    }

    /** The last section of `updateInterface` under the update mutex. */
    method ClaimReset(u: nat) returns (reset: bool)
      requires Inv(Abs()) && CanAdvance(Abs(), u) && updates[u].stage == Claiming
      modifies this
      ensures Abs() == Advance(old(Abs()), u, true) && Inv(Abs())
      ensures reset <==> old(!updates[u].cancelled && networkResetPending)
    {
      AdvanceInv(Abs(), u, true);
      reset := !updates[u].cancelled && networkResetPending;
      if reset {
        claims := claims + [Claim(u, Covered(claims), notified)];
        networkResetPending := false;
        updates := updates[u := updates[u].(stage := Resetting)];
      } else {
        var ending := if updates[u].cancelled then Superseded else Completed(false);
        updates := updates[u := updates[u].(stage := Ended(ending))];
        resetRunHolder := None;
      }
    }

    method ResetNetwork(u: nat)
      requires Inv(Abs()) && CanAdvance(Abs(), u) && updates[u].stage == Resetting
      modifies this
      ensures Abs() == Advance(old(Abs()), u, true) && Inv(Abs())
    {
      AdvanceInv(Abs(), u, true);
      updates := updates[u := updates[u].(stage := Ended(Completed(true)))];
      resetRunHolder := None;
    }
  }
}
