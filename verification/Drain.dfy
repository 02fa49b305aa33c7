/** Owner and followers of a broker drain (shutdown, drain and force in jetstream/bus.go;
    shutdown, drainSubs, force and closeConn in nats/bus.go), with the subscribe calls that race
    with them. One step per mutex section or channel operation. */
module Drain {
  import opened Base
  import opened Lifecycle

  datatype Transport = JetStream | Nats

  /** A consumer or subscription: it reported Closed (or had nothing left to drain), and was told
      to drain or to stop. */
  datatype Consumer = Consumer(closed: bool, draining: bool, stopped: bool)

  datatype Subscriber = Checked | Consuming(c: nat) | Subscribed(c: nat) | Refused

  datatype Channel = NotMade | Open | Shut

  /** A Shutdown call. The owner phases are Telling, Draining, Stopping(true), StopLoop(true, _),
      Interrupting(true), Disconnecting(true) and EndDrain. */
  datatype Caller =
    | Begun
    | Telling(i: nat)             // owner, about to call Drain on the i-th consumer
    | Draining(i: nat)            // owner, waiting for the i-th consumer to report Closed
    | Following
    | Stopping(owner: bool)       // about to enter the once-guarded stop
    | StopLoop(owner: bool, i: nat) // inside it, about to call Stop on the i-th consumer
    | Interrupting(owner: bool)
    | Disconnecting(owner: bool)
    | EndDrain(failed: bool)      // owner, about to close the drained channel
    | Waiting
    | Hanging(failed: bool)       // NATS: Wait is over, the connection is closed next
    | ReturnedNil
    | ReturnedErr

  datatype Bus = Bus(
    life: Life, list: seq<nat>, draining: seq<nat>, drained: Channel,
    consumers: seq<Consumer>, subscribers: seq<Subscriber>, callers: seq<Caller>,
    stopUsed: bool, stopDone: bool, connCloses: nat, cancelled: bool)

  const IDLE := Bus(ZERO, [], [], NotMade, [], [], [], false, false, 0, false)

  datatype Action =
    | SubscribeCheck
    | Consume(s: nat)
    | Register(s: nat)
    | ReportClosed(c: nat)
    | Admit(nested: bool)
    | Track
    | Release
    | Call
    | Cancel
    | Elect(k: nat)
    | Tell(k: nat)
    | TellOver(k: nat)
    | NextClosed(k: nat)
    | DrainOver(k: nat)
    | DrainForced(k: nat)
    | DrainExpired(k: nat)
    | FollowerGoes(k: nat)
    | FollowerExpired(k: nat)
    | StopBegin(k: nat)
    | StopNext(k: nat)
    | StopOver(k: nat)
    | ForceInterrupt(k: nat)
    | Disconnect(k: nat)
    | CloseDrained(k: nat)
    | WaitRound(k: nat)
    | WaitExpired(k: nat)
    | HangUp(k: nat)

  predicate Phase(b: Bus, k: nat, p: Caller) {
    k < |b.callers| && b.callers[k] == p
  }

  predicate TellingAt(b: Bus, k: nat) {
    k < |b.callers| && b.callers[k].Telling?
  }

  predicate LoopingAt(b: Bus, k: nat) {
    k < |b.callers| && b.callers[k].StopLoop?
  }

  predicate DrainingAt(b: Bus, k: nat) {
    k < |b.callers| && b.callers[k].Draining?
  }

  /** A step that leaves every Shutdown call where it is. */
  predicate Aside(a: Action) {
    a.SubscribeCheck? || a.Consume? || a.Register? || a.ReportClosed? || a.Admit? || a.Track? || a.Release?
    || a.Cancel?
  }

  /** The steps of the owner's drain and of its followers. */
  predicate Drains(a: Action) {
    a.Elect? || a.Tell? || a.TellOver? || a.NextClosed? || a.DrainOver? || a.DrainForced? || a.DrainExpired?
    || a.FollowerGoes? || a.FollowerExpired?
  }

  /** The steps of a forced shutdown. */
  predicate Forces(a: Action) {
    a.StopBegin? || a.StopNext? || a.StopOver? || a.ForceInterrupt? || a.Disconnect?
  }

  /** The steps after the drain. */
  predicate Ends(a: Action) {
    a.CloseDrained? || a.WaitRound? || a.WaitExpired? || a.HangUp?
  }

  /** A step that moves the call a.k. */
  predicate Moves(a: Action) {
    Drains(a) || Forces(a) || Ends(a)
  }

  predicate AsideEnabled(b: Bus, a: Action)
    requires Aside(a)
  {
    match a
    case Consume(s) => s < |b.subscribers| && b.subscribers[s].Checked?
    case Register(s) =>
      s < |b.subscribers| && b.subscribers[s].Consuming? && b.subscribers[s].c < |b.consumers|
    case ReportClosed(c) => c < |b.consumers|
    case Release => b.life.inflight > 0
    case Cancel => b.life.forced
    case _ => true
  }

  predicate DrainEnabled(b: Bus, a: Action)
    requires Drains(a)
  {
    match a
    case Elect(k) => Phase(b, k, Begun)
    case Tell(k) =>
      TellingAt(b, k) && b.callers[k].i < |b.draining| && b.draining[b.callers[k].i] < |b.consumers|
    case TellOver(k) => TellingAt(b, k) && b.callers[k].i == |b.draining|
    case NextClosed(k) =>
      DrainingAt(b, k) && b.callers[k].i < |b.draining|
      && b.draining[b.callers[k].i] < |b.consumers| && b.consumers[b.draining[b.callers[k].i]].closed
    case DrainOver(k) => DrainingAt(b, k) && b.callers[k].i == |b.draining|
    case DrainForced(k) => DrainingAt(b, k) && b.callers[k].i < |b.draining| && b.cancelled
    case DrainExpired(k) => DrainingAt(b, k) && b.callers[k].i < |b.draining|
    case FollowerGoes(k) => Phase(b, k, Following) && b.drained == Shut
    case FollowerExpired(k) => Phase(b, k, Following)
  }

  predicate ForceEnabled(b: Bus, a: Action)
    requires Forces(a)
  {
    match a
    // The once lets one caller in; the others wait until it is done.
    case StopBegin(k) => k < |b.callers| && b.callers[k].Stopping? && (b.stopUsed ==> b.stopDone)
    case StopNext(k) =>
      LoopingAt(b, k) && b.callers[k].i < |b.draining| && b.draining[b.callers[k].i] < |b.consumers|
    case StopOver(k) => LoopingAt(b, k) && b.callers[k].i == |b.draining|
    case ForceInterrupt(k) => k < |b.callers| && b.callers[k].Interrupting?
    case Disconnect(k) => k < |b.callers| && b.callers[k].Disconnecting?
  }

  predicate EndEnabled(b: Bus, a: Action)
    requires Ends(a)
  {
    match a
    case CloseDrained(k) => k < |b.callers| && b.callers[k].EndDrain?
    case WaitRound(k) => Phase(b, k, Waiting)
    case WaitExpired(k) => Phase(b, k, Waiting)
    case HangUp(k) => k < |b.callers| && b.callers[k].Hanging?
  }

  predicate Enabled(b: Bus, a: Action) {
    if Aside(a) then AsideEnabled(b, a)
    else if Drains(a) then DrainEnabled(b, a)
    else if Forces(a) then ForceEnabled(b, a)
    else Ends(a) ==> EndEnabled(b, a)
  }

  function Go(b: Bus, k: nat, p: Caller): Bus
    requires k < |b.callers|
  {
    b.(callers := b.callers[k := p])
  }

  /** The first step of force: JetStream stops its consumers before it interrupts. */
  function Force(t: Transport, owner: bool): Caller {
    if t == JetStream then Stopping(owner) else Interrupting(owner)
  }

  /** The end of force. */
  function Forced(owner: bool): Caller {
    if owner then EndDrain(true) else ReturnedErr
  }

  /** closeOnce.Do(nc.Close) */
  function CloseConn(b: Bus): Bus {
    if b.connCloses > 0 then b else b.(connCloses := 1)
  }

  function AsideStep(b: Bus, a: Action): Bus
    requires Aside(a) && AsideEnabled(b, a)
  {
    match a
    case SubscribeCheck =>
      b.(subscribers := b.subscribers + [if b.life.closed || b.life.forced then Refused else Checked])
    case Consume(s) =>
      b.(consumers := b.consumers + [Consumer(false, false, false)],
         subscribers := b.subscribers[s := Consuming(|b.consumers|)])
    case Register(s) =>
      var c := b.subscribers[s].c;
      if b.life.closed || b.life.forced then
        b.(consumers := b.consumers[c := b.consumers[c].(stopped := true)],
           subscribers := b.subscribers[s := Refused])
      else b.(list := b.list + [c], subscribers := b.subscribers[s := Subscribed(c)])
    case ReportClosed(c) => b.(consumers := b.consumers[c := b.consumers[c].(closed := true)])
    case Admit(nested) => b.(life := AdmitStep(b.life, nested).0)
    case Track => b.(life := TrackStep(b.life).0)
    case Release => b.(life := ReleaseStep(b.life))
    case Cancel => b.(cancelled := true)
  }

  function DrainStep(t: Transport, b: Bus, a: Action): Bus
    requires Drains(a) && DrainEnabled(b, a)
  {
    match a
    case Elect(k) =>
      if b.drained != NotMade then Go(b, k, Following)
      else Go(b.(drained := Open, draining := b.list, list := []), k, Telling(0))
    case Tell(k) =>
      var i := b.callers[k].i;
      var c := b.draining[i];
      Go(b.(consumers := b.consumers[c := b.consumers[c].(draining := true)]), k, Telling(i + 1))
    case TellOver(k) => Go(b, k, Draining(0))
    case NextClosed(k) => Go(b, k, Draining(b.callers[k].i + 1))
    case DrainOver(k) => Go(b, k, EndDrain(false))
    case DrainForced(k) => Go(b, k, EndDrain(false))
    case DrainExpired(k) => Go(b, k, Force(t, true))
    case FollowerGoes(k) => Go(b, k, Waiting)
    case FollowerExpired(k) => Go(b, k, Force(t, false))
  }

  function ForceStep(t: Transport, b: Bus, a: Action): Bus
    requires Forces(a) && ForceEnabled(b, a)
  {
    match a
    case StopBegin(k) =>
      if b.stopUsed then Go(b, k, Interrupting(b.callers[k].owner))
      else Go(b.(stopUsed := true), k, StopLoop(b.callers[k].owner, 0))
    case StopNext(k) =>
      var i := b.callers[k].i;
      var c := b.draining[i];
      Go(b.(consumers := b.consumers[c := b.consumers[c].(stopped := true)]), k, StopLoop(b.callers[k].owner, i + 1))
    case StopOver(k) => Go(b.(stopDone := true), k, Interrupting(b.callers[k].owner))
    case ForceInterrupt(k) =>
      var owner := b.callers[k].owner;
      Go(b.(life := InterruptStep(b.life)), k, if t == Nats then Disconnecting(owner) else Forced(owner))
    case Disconnect(k) => Go(CloseConn(b), k, Forced(b.callers[k].owner))
  }

  function EndStep(t: Transport, b: Bus, a: Action): Bus
    requires Ends(a) && EndEnabled(b, a)
  {
    match a
    case CloseDrained(k) => Go(b.(drained := Shut), k, if b.callers[k].failed then ReturnedErr else Waiting)
    case WaitRound(k) =>
      var (l, block) := WaitStep(b.life);
      if block.Some? then b.(life := l)
      else Go(b.(life := l), k, if t == Nats then Hanging(false) else ReturnedNil)
    case WaitExpired(k) =>
      Go(b.(life := InterruptStep(b.life)), k, if t == Nats then Hanging(true) else ReturnedErr)
    case HangUp(k) => Go(CloseConn(b), k, if b.callers[k].failed then ReturnedErr else ReturnedNil)
  }

  function Step(t: Transport, b: Bus, a: Action): Bus
    requires Enabled(b, a)
  {
    if Aside(a) then AsideStep(b, a)
    else if Drains(a) then DrainStep(t, b, a)
    else if Forces(a) then ForceStep(t, b, a)
    else if Ends(a) then EndStep(t, b, a)
    else b.(life := BeginStep(b.life), callers := b.callers + [Begun]) // Call
  }

  ghost predicate Runs(t: Transport, b: Bus, actions: seq<Action>)
    decreases |actions|
  {
    actions == [] || (Enabled(b, actions[0]) && Runs(t, Step(t, b, actions[0]), actions[1..]))
  }

  ghost function After(t: Transport, b: Bus, actions: seq<Action>): Bus
    requires Runs(t, b, actions)
    decreases |actions|
  {
    if actions == [] then b else After(t, Step(t, b, actions[0]), actions[1..])
  }

  // ---------- the invariant ----------

  function Owns(p: Caller): nat {
    match p
    case Telling(_) => 1
    case Draining(_) => 1
    case Stopping(owner) => if owner then 1 else 0
    case StopLoop(owner, _) => if owner then 1 else 0
    case Interrupting(owner) => if owner then 1 else 0
    case Disconnecting(owner) => if owner then 1 else 0
    case EndDrain(_) => 1
    case _ => 0
  }

  /** 1 while an owner must exist. */
  function Owned(b: Bus): nat {
    if b.drained == Open then 1 else 0
  }

  ghost predicate AllReported(b: Bus, n: nat) {
    forall j | 0 <= j < n && j < |b.draining| ::
      b.draining[j] < |b.consumers| && b.consumers[b.draining[j]].closed
  }

  ghost predicate CallerOk(b: Bus, p: Caller) {
    match p
    case Telling(i) => i <= |b.draining|
    case Draining(i) => i <= |b.draining| && AllReported(b, i)
    case Following => b.drained != NotMade
    case Stopping(owner) => b.drained != NotMade
    case StopLoop(owner, i) => b.drained != NotMade && i <= |b.draining|
    case Interrupting(owner) => b.drained != NotMade
    case Disconnecting(owner) => b.life.forced && b.drained != NotMade
    case EndDrain(failed) => b.life.forced || (!failed && AllReported(b, |b.draining|))
    case Waiting => b.drained == Shut
    case Hanging(failed) => b.drained == Shut && (if failed then b.life.forced else b.life.done)
    case ReturnedNil => b.drained == Shut && b.life.done
    case ReturnedErr => b.life.forced
    case Begun => true
  }

  predicate Fits(t: Transport, p: Caller) {
    t == JetStream ==> !p.Disconnecting? && !p.Hanging?
  }

  /** The part of the invariant about the life cycle and the connection. */
  predicate LifeOk(t: Transport, b: Bus) {
    && (b.callers != [] ==> b.life.closed)
    && b.life.inflight >= 0 && (b.life.done ==> b.life.inflight == 0)
    && (b.drained != NotMade ==> b.life.closed)
    && (b.cancelled ==> b.life.forced)
    && b.connCloses <= 1
    && (b.connCloses > 0 ==> t == Nats && (b.life.forced || (b.life.done && b.drained == Shut)))
  }

  /** The part about the list of subscriptions and the drain that took it. */
  ghost predicate ListsOk(b: Bus) {
    && (b.drained != NotMade ==> b.list == [])
    && (b.drained == NotMade ==> b.draining == [])
    && (b.drained == Shut ==> b.life.forced || AllReported(b, |b.draining|))
    && (forall s | 0 <= s < |b.subscribers| && b.subscribers[s].Consuming? :: b.subscribers[s].c < |b.consumers|)
    && (forall s | 0 <= s < |b.subscribers| && b.subscribers[s].Subscribed? ::
          b.subscribers[s].c in b.list || b.subscribers[s].c in b.draining)
  }

  /** The part about the callers. */
  ghost predicate CallersOk(t: Transport, b: Bus) {
    && Sum(Owns, b.callers) == Owned(b)
    && (forall k | 0 <= k < |b.callers| :: CallerOk(b, b.callers[k]) && Fits(t, b.callers[k]))
  }

  ghost predicate Inv(t: Transport, b: Bus) {
    LifeOk(t, b) && ListsOk(b) && CallersOk(t, b)
  }

  // ---------- every step keeps it ----------

  /** What no step takes back. */
  ghost predicate Grows(b: Bus, c: Bus) {
    && (b.life.closed ==> c.life.closed) && (b.life.forced ==> c.life.forced) && (b.life.done ==> c.life.done)
    && (b.drained != NotMade ==> c.drained != NotMade && c.draining == b.draining)
    && (b.drained == Shut ==> c.drained == Shut)
    && |b.consumers| <= |c.consumers|
    && (forall j | 0 <= j < |b.consumers| && b.consumers[j].closed :: c.consumers[j].closed)
  }

  lemma AsideGrows(b: Bus, a: Action)
    requires Aside(a) && AsideEnabled(b, a)
    ensures Grows(b, AsideStep(b, a))
  {
  }

  lemma DrainGrows(t: Transport, b: Bus, a: Action)
    requires Drains(a) && DrainEnabled(b, a)
    ensures Grows(b, DrainStep(t, b, a))
  {
  }

  lemma ForceGrows(t: Transport, b: Bus, a: Action)
    requires Forces(a) && ForceEnabled(b, a)
    ensures Grows(b, ForceStep(t, b, a))
  {
  }

  lemma WaitKeeps(l: Life)
    ensures var m := WaitStep(l).0; m.closed == l.closed && m.forced == l.forced && (l.done ==> m.done)
  {
  }

  lemma WaitGrows(t: Transport, b: Bus, k: nat)
    requires EndEnabled(b, WaitRound(k))
    ensures Grows(b, EndStep(t, b, WaitRound(k)))
  {
    hide WaitStep;
    WaitKeeps(b.life);
  }

  lemma EndGrows(t: Transport, b: Bus, a: Action)
    requires Ends(a) && EndEnabled(b, a) && (a.CloseDrained? ==> b.drained == Open)
    ensures Grows(b, EndStep(t, b, a))
  {
    if a.WaitRound? {
      WaitGrows(t, b, a.k);
    }
  }

  lemma StepGrows(t: Transport, b: Bus, a: Action)
    requires Enabled(b, a) && Sum(Owns, b.callers) == Owned(b)
    ensures Grows(b, Step(t, b, a))
  {
    hide AsideStep, DrainStep, ForceStep, EndStep, AsideEnabled, DrainEnabled, ForceEnabled;
    if Aside(a) {
      AsideGrows(b, a);
    } else if Drains(a) {
      DrainGrows(t, b, a);
    } else if Forces(a) {
      ForceGrows(t, b, a);
    } else if Ends(a) {
      if a.CloseDrained? {
        SumAtLeast(Owns, b.callers, a.k);
      }
      EndGrows(t, b, a);
    }
  }

  lemma GrowthKeeps(b: Bus, c: Bus, p: Caller)
    requires Grows(b, c) && CallerOk(b, p) && (p.Telling? || p.Draining? || p.EndDrain? ==> b.drained != NotMade)
    ensures CallerOk(c, p)
  {
    if p.Draining? {
      assert AllReported(c, p.i);
    }
    if p.EndDrain? && !p.failed && !b.life.forced {
      assert AllReported(c, |c.draining|);
    }
  }

  lemma AsideLife(t: Transport, b: Bus, a: Action)
    requires LifeOk(t, b) && Aside(a) && AsideEnabled(b, a)
    ensures LifeOk(t, AsideStep(b, a))
  {
  }

  lemma DrainLife(t: Transport, b: Bus, a: Action)
    requires LifeOk(t, b) && Drains(a) && DrainEnabled(b, a)
    ensures LifeOk(t, DrainStep(t, b, a))
  {
  }

  lemma ForceLife(t: Transport, b: Bus, a: Action)
    requires LifeOk(t, b) && Forces(a) && ForceEnabled(b, a)
    requires CallerOk(b, b.callers[a.k]) && Fits(t, b.callers[a.k])
    ensures LifeOk(t, ForceStep(t, b, a))
  {
  }

  lemma EndLife(t: Transport, b: Bus, a: Action)
    requires LifeOk(t, b) && Ends(a) && EndEnabled(b, a)
    requires CallerOk(b, b.callers[a.k]) && Fits(t, b.callers[a.k])
    ensures LifeOk(t, EndStep(t, b, a))
  {
  }

  lemma LifeStep(t: Transport, b: Bus, a: Action)
    requires Inv(t, b) && Enabled(b, a)
    ensures LifeOk(t, Step(t, b, a))
  {
    hide AsideStep, DrainStep, ForceStep, EndStep, AsideEnabled, ListsOk, CallerOk;
    if Aside(a) {
      AsideLife(t, b, a);
    } else if Drains(a) {
      DrainLife(t, b, a);
    } else if Forces(a) {
      ForceLife(t, b, a);
    } else if Ends(a) {
      EndLife(t, b, a);
    }
  }

  /** A step that leaves the two lists alone, and closes the drained channel at most. */
  ghost predicate SameLists(b: Bus, c: Bus) {
    && c.list == b.list && c.draining == b.draining && c.subscribers == b.subscribers
    && (c.drained == b.drained
        || (b.drained == Open && c.drained == Shut && (c.life.forced || AllReported(c, |c.draining|))))
  }

  lemma ListsKept(b: Bus, c: Bus)
    requires ListsOk(b) && Grows(b, c) && SameLists(b, c)
    ensures ListsOk(c)
  {
    if c.drained == Shut && !c.life.forced && b.drained == Shut {
      assert AllReported(b, |b.draining|);
    }
  }

  lemma AsideLists(b: Bus, a: Action)
    requires ListsOk(b) && Aside(a) && AsideEnabled(b, a) && (b.drained != NotMade ==> b.life.closed)
    ensures ListsOk(AsideStep(b, a))
  {
    AsideGrows(b, a);
    var c := AsideStep(b, a);
    if c.drained == Shut && !c.life.forced {
      assert AllReported(b, |b.draining|);
    }
  }

  lemma ElectLists(t: Transport, b: Bus, k: nat)
    requires ListsOk(b) && DrainEnabled(b, Elect(k))
    ensures ListsOk(DrainStep(t, b, Elect(k)))
  {
    if b.drained == Shut && !b.life.forced {
      assert AllReported(DrainStep(t, b, Elect(k)), |b.draining|);
    }
  }

  lemma DrainLists(t: Transport, b: Bus, a: Action)
    requires Drains(a) && DrainEnabled(b, a) && !a.Elect?
    ensures SameLists(b, DrainStep(t, b, a))
  {
  }

  lemma ForceLists(t: Transport, b: Bus, a: Action)
    requires Forces(a) && ForceEnabled(b, a)
    ensures SameLists(b, ForceStep(t, b, a))
  {
  }

  lemma EndLists(t: Transport, b: Bus, a: Action)
    requires Ends(a) && EndEnabled(b, a) && CallerOk(b, b.callers[a.k]) && (a.CloseDrained? ==> b.drained == Open)
    ensures SameLists(b, EndStep(t, b, a))
  {
    if a.CloseDrained? && !b.life.forced {
      assert AllReported(EndStep(t, b, a), |b.draining|);
    }
  }

  lemma ListsStep(t: Transport, b: Bus, a: Action)
    requires Inv(t, b) && Enabled(b, a)
    ensures ListsOk(Step(t, b, a))
  {
    hide AsideStep, DrainStep, ForceStep, EndStep, ListsOk, CallerOk, Grows, SameLists, AllReported;
    StepGrows(t, b, a);
    if Aside(a) {
      AsideLists(b, a);
    } else if a.Elect? {
      ElectLists(t, b, a.k);
    } else if Drains(a) {
      DrainLists(t, b, a);
      ListsKept(b, Step(t, b, a));
    } else if Forces(a) {
      ForceLists(t, b, a);
      ListsKept(b, Step(t, b, a));
    } else if Ends(a) {
      SumAtLeast(Owns, b.callers, a.k);
      EndLists(t, b, a);
      ListsKept(b, Step(t, b, a));
    } else {
      CallLists(t, b, a);
    }
  }

  lemma CallLists(t: Transport, b: Bus, a: Action)
    requires ListsOk(b) && a.Call?
    ensures ListsOk(Step(t, b, a))
  {
    ListsKept(b, Step(t, b, a));
  }

  lemma InRange(b: Bus, a: Action)
    requires Moves(a) && Enabled(b, a)
    ensures a.k < |b.callers|
  {
  }

  /** The owner's steps find the drained channel open. */
  lemma OwnersStep(t: Transport, b: Bus, a: Action)
    requires CallersOk(t, b) && Enabled(b, a)
    requires a.CloseDrained? || (Drains(a) && !a.Elect? && !a.FollowerGoes? && !a.FollowerExpired?)
    ensures b.drained == Open
  {
    hide CallerOk;
    SumAtLeast(Owns, b.callers, a.k);
  }

  /** The caller that moved is fine where it is now, and the owner count follows the channel. */
  ghost predicate Moved(t: Transport, b: Bus, c: Bus, k: nat) {
    && k < |b.callers| && |c.callers| == |b.callers| && c.callers == b.callers[k := c.callers[k]]
    && CallerOk(c, c.callers[k]) && Fits(t, c.callers[k])
    && Owns(c.callers[k]) + Owned(b) == Owns(b.callers[k]) + Owned(c)
  }

  lemma ElectMoves(t: Transport, b: Bus, a: Action)
    requires (a.Elect? || a.FollowerGoes? || a.FollowerExpired?) && DrainEnabled(b, a)
    requires CallerOk(b, b.callers[a.k])
    ensures Moved(t, b, DrainStep(t, b, a), a.k)
  {
  }

  lemma DrainMoves(t: Transport, b: Bus, a: Action)
    requires Drains(a) && !a.Elect? && !a.FollowerGoes? && !a.FollowerExpired? && DrainEnabled(b, a)
    requires CallerOk(b, b.callers[a.k]) && b.drained == Open && (b.cancelled ==> b.life.forced)
    ensures Moved(t, b, DrainStep(t, b, a), a.k)
  {
    if a.DrainOver? {
      assert AllReported(DrainStep(t, b, a), |b.draining|);
    }
  }

  lemma ForceMoves(t: Transport, b: Bus, a: Action)
    requires Forces(a) && ForceEnabled(b, a) && CallerOk(b, b.callers[a.k]) && Fits(t, b.callers[a.k])
    ensures Moved(t, b, ForceStep(t, b, a), a.k)
  {
    hide AllReported;
  }

  lemma WaitMoves(t: Transport, b: Bus, k: nat)
    requires EndEnabled(b, WaitRound(k)) && CallerOk(b, b.callers[k])
    ensures Moved(t, b, EndStep(t, b, WaitRound(k)), k)
  {
    hide AllReported;
  }

  lemma EndMoves(t: Transport, b: Bus, a: Action)
    requires Ends(a) && !a.WaitRound? && EndEnabled(b, a) && CallerOk(b, b.callers[a.k]) && Fits(t, b.callers[a.k])
    requires a.CloseDrained? ==> b.drained == Open
    ensures Moved(t, b, EndStep(t, b, a), a.k)
  {
    hide AllReported;
  }

  lemma DrainMoverOk(t: Transport, b: Bus, a: Action)
    requires LifeOk(t, b) && CallersOk(t, b) && Drains(a) && DrainEnabled(b, a)
    ensures Moved(t, b, DrainStep(t, b, a), a.k)
  {
    hide DrainStep, CallerOk, Owns, Moved;
    if a.Elect? || a.FollowerGoes? || a.FollowerExpired? {
      ElectMoves(t, b, a);
    } else {
      OwnersStep(t, b, a);
      DrainMoves(t, b, a);
    }
  }

  lemma EndMoverOk(t: Transport, b: Bus, a: Action)
    requires CallersOk(t, b) && Ends(a) && EndEnabled(b, a)
    ensures Moved(t, b, EndStep(t, b, a), a.k)
  {
    hide EndStep, CallerOk, Owns, Moved;
    if a.WaitRound? {
      WaitMoves(t, b, a.k);
    } else {
      if a.CloseDrained? {
        OwnersStep(t, b, a);
      }
      EndMoves(t, b, a);
    }
  }

  lemma MoverOk(t: Transport, b: Bus, a: Action)
    requires Inv(t, b) && Enabled(b, a) && Moves(a)
    ensures Moved(t, b, Step(t, b, a), a.k)
  {
    hide DrainStep, ForceStep, EndStep, DrainEnabled, EndEnabled, LifeOk, ListsOk, CallerOk, Fits, Moved;
    if Drains(a) {
      DrainMoverOk(t, b, a);
    } else if Forces(a) {
      ForceMoves(t, b, a);
    } else {
      EndMoverOk(t, b, a);
    }
  }

  lemma OthersOk(t: Transport, b: Bus, a: Action, k: nat)
    requires Inv(t, b) && Enabled(b, a) && k < |b.callers|
    ensures CallerOk(Step(t, b, a), b.callers[k])
  {
    hide Step, Enabled, LifeOk, ListsOk, CallerOk, Grows;
    StepGrows(t, b, a);
    SumAtLeast(Owns, b.callers, k);
    GrowthKeeps(b, Step(t, b, a), b.callers[k]);
  }

  lemma AsideCallers(b: Bus, a: Action)
    requires Aside(a) && AsideEnabled(b, a)
    ensures AsideStep(b, a).callers == b.callers && AsideStep(b, a).drained == b.drained
  {
  }

  lemma CallersMoved(t: Transport, b: Bus, c: Bus, k: nat)
    requires CallersOk(t, b) && Moved(t, b, c, k)
    requires forall j | 0 <= j < |b.callers| :: CallerOk(c, b.callers[j])
    ensures CallersOk(t, c)
  {
    hide CallerOk;
    SumUpdate(Owns, b.callers, k, c.callers[k]);
  }

  lemma AsideCallersOk(t: Transport, b: Bus, c: Bus)
    requires CallersOk(t, b) && c.callers == b.callers && c.drained == b.drained
    requires forall k | 0 <= k < |b.callers| :: CallerOk(c, b.callers[k])
    ensures CallersOk(t, c)
  {
    hide CallerOk;
  }

  lemma CallCallersOk(t: Transport, b: Bus, c: Bus)
    requires CallersOk(t, b) && c.callers == b.callers + [Begun] && c.drained == b.drained
    requires forall k | 0 <= k < |b.callers| :: CallerOk(c, b.callers[k])
    ensures CallersOk(t, c)
  {
    SumAppend(Owns, b.callers, Begun);
  }

  lemma CallersStep(t: Transport, b: Bus, a: Action)
    requires Inv(t, b) && Enabled(b, a)
    ensures CallersOk(t, Step(t, b, a))
  {
    hide AsideStep, DrainStep, ForceStep, EndStep, DrainEnabled, ForceEnabled, EndEnabled;
    hide LifeOk, ListsOk, CallersOk, CallerOk, Moved;
    forall k | 0 <= k < |b.callers| ensures CallerOk(Step(t, b, a), b.callers[k]) {
      OthersOk(t, b, a, k);
    }
    if Aside(a) {
      AsideCallers(b, a);
      AsideCallersOk(t, b, Step(t, b, a));
    } else if Moves(a) {
      MoverOk(t, b, a);
      CallersMoved(t, b, Step(t, b, a), a.k);
    } else {
      CallCallersOk(t, b, Step(t, b, a));
    }
  }

  lemma InvStep(t: Transport, b: Bus, a: Action)
    requires Inv(t, b) && Enabled(b, a)
    ensures Inv(t, Step(t, b, a))
  {
    hide Step, Enabled;
    LifeStep(t, b, a);
    ListsStep(t, b, a);
    CallersStep(t, b, a);
  }

  lemma {:induction false} InvRun(t: Transport, b: Bus, actions: seq<Action>)
    requires Inv(t, b) && Runs(t, b, actions)
    ensures Inv(t, After(t, b, actions))
    decreases |actions|
  {
    hide Step, Enabled, Inv;
    if actions != [] {
      InvStep(t, b, actions[0]);
      InvRun(t, Step(t, b, actions[0]), actions[1..]);
    }
  }

  // ---------- what every interleaving guarantees ----------

  /** No subscribed consumer escapes: once a Shutdown call took the list, every consumer whose
      Subscribe succeeded is among those the drain waits for. */
  lemma NoConsumerEscapes(t: Transport, actions: seq<Action>, s: nat)
    requires Runs(t, IDLE, actions)
    requires var b := After(t, IDLE, actions);
             s < |b.subscribers| && b.subscribers[s].Subscribed? && b.drained != NotMade
    ensures var b := After(t, IDLE, actions); b.subscribers[s].c in b.draining
  {
    InvRun(t, IDLE, actions);
  }

  /** The drained channel is closed at most once, by its one owner: a call about to close it
      finds it open, and no other call owns the drain. */
  lemma DrainedClosedOnce(t: Transport, actions: seq<Action>, k: nat, j: nat)
    requires Runs(t, IDLE, actions)
    requires var b := After(t, IDLE, actions); k < |b.callers| && Owns(b.callers[k]) > 0 && j < |b.callers| && j != k
    ensures var b := After(t, IDLE, actions); b.drained == Open && Owns(b.callers[j]) == 0
  {
    InvRun(t, IDLE, actions);
    var b := After(t, IDLE, actions);
    SumAtLeast(Owns, b.callers, k);
    TwoOwners(b.callers, k, j);
  }

  lemma {:induction false} TwoOwners(callers: seq<Caller>, k: nat, j: nat)
    requires k < |callers| && j < |callers| && j != k
    ensures Owns(callers[k]) + Owns(callers[j]) <= Sum(Owns, callers)
  {
    var n := |callers| - 1;
    if k < n && j < n {
      TwoOwners(callers[..n], k, j);
    } else {
      SumAtLeast(Owns, callers[..n], if k < n then k else j);
    }
  }

  /** A Shutdown call that returned nil found the bus idle for good; unless some call forced the
      shutdown, every consumer any successful Subscribe registered has reported Closed. */
  lemma NilMeansDrained(t: Transport, actions: seq<Action>, k: nat)
    requires Runs(t, IDLE, actions)
    requires var b := After(t, IDLE, actions); k < |b.callers| && b.callers[k] == ReturnedNil
    ensures var b := After(t, IDLE, actions);
            && b.life.done && b.life.inflight == 0
            && !AdmitStep(b.life, true).1 && !TrackStep(b.life).1
            && (b.life.forced || forall s | 0 <= s < |b.subscribers| && b.subscribers[s].Subscribed? ::
                  b.subscribers[s].c in b.draining
                  && b.subscribers[s].c < |b.consumers| && b.consumers[b.subscribers[s].c].closed)
  {
    InvRun(t, IDLE, actions);
    var b := After(t, IDLE, actions);
    assert CallerOk(b, b.callers[k]);
    if !b.life.forced {
      forall s | 0 <= s < |b.subscribers| && b.subscribers[s].Subscribed?
        ensures b.subscribers[s].c in b.draining
                && b.subscribers[s].c < |b.consumers| && b.consumers[b.subscribers[s].c].closed
      {
        var j :| 0 <= j < |b.draining| && b.draining[j] == b.subscribers[s].c;
        assert AllReported(b, |b.draining|);
      }
    }
  }

  /** The NATS connection is closed at most once, and never while a subscription may still be
      draining or a handler may still run, unless a deadline forced it. */
  lemma ConnectionClosedOnceAndLate(t: Transport, actions: seq<Action>)
    requires Runs(t, IDLE, actions)
    ensures var b := After(t, IDLE, actions);
            && b.connCloses <= 1
            && (b.connCloses == 1 && !b.life.forced ==>
                  t == Nats && b.life.done && b.life.inflight == 0 && b.drained == Shut && AllReported(b, |b.draining|))
  {
    InvRun(t, IDLE, actions);
  }

  // ---------- nobody waits for a consumer that was not told ----------

  ghost predicate AllTold(b: Bus, n: nat) {
    forall j | 0 <= j < n && j < |b.draining| ::
      b.draining[j] < |b.consumers| && b.consumers[b.draining[j]].draining
  }

  ghost predicate AllStopped(b: Bus, n: nat) {
    forall j | 0 <= j < n && j < |b.draining| ::
      b.draining[j] < |b.consumers| && b.consumers[b.draining[j]].stopped
  }

  /** What a caller has told the consumers so far. */
  ghost predicate Spoken(b: Bus, p: Caller) {
    match p
    case Telling(i) => AllTold(b, i)
    case Draining(_) => AllTold(b, |b.draining|)
    case StopLoop(_, i) => AllStopped(b, i)
    case _ => true
  }

  ghost predicate SpokenAt(b: Bus, k: nat) {
    k < |b.callers| && Spoken(b, b.callers[k])
  }

  function Loops(p: Caller): nat {
    if p.StopLoop? then 1 else 0
  }

  ghost predicate Known(b: Bus) {
    && (forall j | 0 <= j < |b.list| :: b.list[j] < |b.consumers|)
    && (forall j | 0 <= j < |b.draining| :: b.draining[j] < |b.consumers|)
  }

  /** 1 while a caller is inside the once-guarded stop. */
  function Inside(b: Bus): nat {
    if b.stopUsed && !b.stopDone then 1 else 0
  }

  ghost predicate Once(b: Bus) {
    && Sum(Loops, b.callers) == Inside(b)
    && (b.stopDone ==> b.stopUsed && b.drained != NotMade && AllStopped(b, |b.draining|))
    && (b.stopUsed ==> b.drained != NotMade)
  }

  ghost predicate Talk(b: Bus) {
    && Known(b) && Once(b)
    && (forall k | 0 <= k < |b.callers| :: Spoken(b, b.callers[k]))
  }

  /** Consumers never forget what they were told. */
  ghost predicate Heard(b: Bus, c: Bus) {
    && |b.consumers| <= |c.consumers|
    && (forall j | 0 <= j < |b.consumers| :: b.consumers[j].draining ==> c.consumers[j].draining)
    && (forall j | 0 <= j < |b.consumers| :: b.consumers[j].stopped ==> c.consumers[j].stopped)
    && (b.drained != NotMade ==> c.drained != NotMade && c.draining == b.draining)
  }

  lemma AsideHeard(b: Bus, a: Action)
    requires Aside(a) && AsideEnabled(b, a)
    ensures Heard(b, AsideStep(b, a))
  {
  }

  lemma DrainHeard(t: Transport, b: Bus, a: Action)
    requires Drains(a) && DrainEnabled(b, a)
    ensures Heard(b, DrainStep(t, b, a))
  {
  }

  lemma ForceHeard(t: Transport, b: Bus, a: Action)
    requires Forces(a) && ForceEnabled(b, a)
    ensures Heard(b, ForceStep(t, b, a))
  {
  }

  lemma EndHeard(t: Transport, b: Bus, a: Action)
    requires Ends(a) && EndEnabled(b, a)
    ensures Heard(b, EndStep(t, b, a))
  {
  }

  lemma HeardStep(t: Transport, b: Bus, a: Action)
    requires Enabled(b, a)
    ensures Heard(b, Step(t, b, a))
  {
    hide AsideStep, DrainStep, ForceStep, EndStep, AsideEnabled, DrainEnabled, ForceEnabled, EndEnabled;
    if Aside(a) {
      AsideHeard(b, a);
    } else if Drains(a) {
      DrainHeard(t, b, a);
    } else if Forces(a) {
      ForceHeard(t, b, a);
    } else if Ends(a) {
      EndHeard(t, b, a);
    }
  }

  lemma AsideKnown(b: Bus, a: Action)
    requires Known(b) && Aside(a) && AsideEnabled(b, a)
    ensures Known(AsideStep(b, a))
  {
  }

  lemma ElectKnown(t: Transport, b: Bus, k: nat)
    requires Known(b) && DrainEnabled(b, Elect(k))
    ensures Known(DrainStep(t, b, Elect(k)))
  {
  }

  lemma KnownStep(t: Transport, b: Bus, a: Action)
    requires Inv(t, b) && Known(b) && Enabled(b, a)
    ensures Known(Step(t, b, a))
  {
    hide AsideStep, DrainStep, ForceStep, EndStep, ListsOk, CallerOk, AllReported;
    HeardStep(t, b, a);
    if Aside(a) {
      AsideKnown(b, a);
    } else if a.Elect? {
      ElectKnown(t, b, a.k);
    } else if Drains(a) {
      DrainLists(t, b, a);
    } else if Forces(a) {
      ForceLists(t, b, a);
    } else if Ends(a) {
      SumAtLeast(Owns, b.callers, a.k);
      EndLists(t, b, a);
    }
  }

  lemma SpokenStays(b: Bus, c: Bus, p: Caller)
    requires Spoken(b, p) && Heard(b, c)
    requires p.Telling? || p.Draining? || p.StopLoop? ==> b.drained != NotMade
    ensures Spoken(c, p)
  {
  }

  lemma DrainSpoken(t: Transport, b: Bus, a: Action)
    requires Drains(a) && DrainEnabled(b, a) && SpokenAt(b, a.k)
    ensures SpokenAt(DrainStep(t, b, a), a.k)
  {
  }

  lemma ForceSpoken(t: Transport, b: Bus, a: Action)
    requires Forces(a) && ForceEnabled(b, a) && SpokenAt(b, a.k)
    ensures SpokenAt(ForceStep(t, b, a), a.k)
  {
  }

  lemma EndSpoken(t: Transport, b: Bus, a: Action)
    requires Ends(a) && EndEnabled(b, a)
    ensures SpokenAt(EndStep(t, b, a), a.k)
  {
    hide WaitStep, InterruptStep;
  }

  lemma MoverSpoken(t: Transport, b: Bus, a: Action)
    requires Enabled(b, a) && Moves(a) && SpokenAt(b, a.k)
    ensures SpokenAt(Step(t, b, a), a.k)
  {
    hide DrainStep, ForceStep, EndStep, DrainEnabled, ForceEnabled, EndEnabled, SpokenAt;
    if Drains(a) {
      DrainSpoken(t, b, a);
    } else if Forces(a) {
      ForceSpoken(t, b, a);
    } else {
      EndSpoken(t, b, a);
    }
  }

  /** The guarded stop as a step of caller k leaves it. */
  ghost predicate Guarded(b: Bus, c: Bus, k: nat) {
    && k < |b.callers| && k < |c.callers|
    && Loops(c.callers[k]) + Inside(b) == Loops(b.callers[k]) + Inside(c)
    && (c.stopDone ==> c.stopUsed && (b.stopDone || AllStopped(c, |c.draining|)))
    && (c.stopUsed ==> b.stopUsed || c.drained != NotMade)
  }

  lemma DrainGuarded(t: Transport, b: Bus, a: Action)
    requires Drains(a) && DrainEnabled(b, a) && (b.stopDone ==> b.stopUsed)
    ensures Guarded(b, DrainStep(t, b, a), a.k)
  {
  }

  lemma EndGuarded(t: Transport, b: Bus, a: Action)
    requires Ends(a) && EndEnabled(b, a) && (b.stopDone ==> b.stopUsed)
    ensures Guarded(b, EndStep(t, b, a), a.k)
  {
  }

  lemma ForceGuarded(t: Transport, b: Bus, a: Action)
    requires Forces(a) && ForceEnabled(b, a) && (b.stopDone ==> b.stopUsed)
    requires Loops(b.callers[a.k]) <= Inside(b)
    requires CallerOk(b, b.callers[a.k]) && Spoken(b, b.callers[a.k])
    ensures Guarded(b, ForceStep(t, b, a), a.k)
  {
    hide AllReported, AllTold;
    if a.StopOver? {
      assert AllStopped(ForceStep(t, b, a), |b.draining|);
    }
  }

  lemma StoppedStays(b: Bus, c: Bus)
    requires Once(b) && Heard(b, c) && b.stopDone
    ensures AllStopped(c, |c.draining|)
  {
  }

  lemma OnceKept(b: Bus, c: Bus, k: nat)
    requires Once(b) && Guarded(b, c, k) && Heard(b, c) && (b.drained != NotMade ==> c.drained != NotMade)
    requires |c.callers| == |b.callers| && c.callers == b.callers[k := c.callers[k]]
    ensures Once(c)
  {
    hide AllStopped, Loops;
    if b.stopDone {
      StoppedStays(b, c);
    }
    SumUpdate(Loops, b.callers, k, c.callers[k]);
  }

  lemma MoverGuarded(t: Transport, b: Bus, a: Action)
    requires Inv(t, b) && Talk(b) && Enabled(b, a) && Moves(a)
    ensures Guarded(b, Step(t, b, a), a.k)
  {
    hide DrainStep, ForceStep, EndStep, DrainEnabled, ForceEnabled, EndEnabled;
    hide LifeOk, ListsOk, CallerOk, Known, Spoken, AllStopped, Loops, Guarded;
    InRange(b, a);
    SumAtLeast(Loops, b.callers, a.k);
    if Drains(a) {
      DrainGuarded(t, b, a);
    } else if Forces(a) {
      ForceGuarded(t, b, a);
    } else {
      EndGuarded(t, b, a);
    }
  }

  lemma OnceMoved(t: Transport, b: Bus, a: Action)
    requires Inv(t, b) && Talk(b) && Enabled(b, a) && Moves(a)
    ensures Once(Step(t, b, a))
  {
    hide Step, Enabled, Inv, CallerOk, Known, Spoken, Once, Guarded;
    MoverGuarded(t, b, a);
    MoverOk(t, b, a);
    HeardStep(t, b, a);
    OnceKept(b, Step(t, b, a), a.k);
  }

  lemma AsideStop(b: Bus, a: Action)
    requires Aside(a) && AsideEnabled(b, a)
    ensures AsideStep(b, a).stopUsed == b.stopUsed && AsideStep(b, a).stopDone == b.stopDone
  {
  }

  lemma OnceAside(t: Transport, b: Bus, a: Action)
    requires Once(b) && Enabled(b, a) && !Moves(a)
    ensures Once(Step(t, b, a))
  {
    hide AsideStep, AsideEnabled, AllStopped;
    HeardStep(t, b, a);
    if b.stopDone {
      StoppedStays(b, Step(t, b, a));
    }
    if Aside(a) {
      AsideStop(b, a);
      AsideCallers(b, a);
    } else {
      SumAppend(Loops, b.callers, Begun);
    }
  }

  lemma CallerStays(t: Transport, b: Bus, a: Action, k: nat)
    requires Inv(t, b) && Enabled(b, a) && k < |b.callers| && (Moves(a) ==> k != a.k)
    ensures k < |Step(t, b, a).callers| && Step(t, b, a).callers[k] == b.callers[k]
  {
    hide AsideStep, DrainStep, ForceStep, EndStep, Inv, CallerOk;
    if Aside(a) {
      AsideCallers(b, a);
    } else if Moves(a) {
      MoverOk(t, b, a);
    }
  }

  lemma SpokenStep(t: Transport, b: Bus, a: Action, k: nat)
    requires Inv(t, b) && Talk(b) && Enabled(b, a) && k < |b.callers|
    ensures SpokenAt(Step(t, b, a), k)
  {
    hide Step, Enabled, LifeOk, ListsOk, AllReported, Known, Once, Spoken, Heard;
    if Moves(a) && k == a.k {
      MoverSpoken(t, b, a);
      MoverOk(t, b, a);
    } else {
      HeardStep(t, b, a);
      SumAtLeast(Owns, b.callers, k);
      CallerStays(t, b, a, k);
      SpokenStays(b, Step(t, b, a), b.callers[k]);
    }
  }

  lemma NewCallers(t: Transport, b: Bus, a: Action)
    requires Inv(t, b) && Enabled(b, a)
    ensures var c := Step(t, b, a);
            forall k | |b.callers| <= k < |c.callers| :: c.callers[k] == Begun
  {
    hide AsideStep, DrainStep, ForceStep, EndStep, Inv, CallerOk;
    if Aside(a) {
      AsideCallers(b, a);
    } else if Moves(a) {
      MoverOk(t, b, a);
    }
  }

  lemma TalkStep(t: Transport, b: Bus, a: Action)
    requires Inv(t, b) && Talk(b) && Enabled(b, a)
    ensures Talk(Step(t, b, a))
  {
    hide Step, Enabled, Inv, Once, Known, AllTold, AllStopped;
    var c := Step(t, b, a);
    KnownStep(t, b, a);
    if Moves(a) {
      OnceMoved(t, b, a);
    } else {
      OnceAside(t, b, a);
    }
    NewCallers(t, b, a);
    forall k | 0 <= k < |c.callers| ensures Spoken(c, c.callers[k]) {
      if k < |b.callers| {
        SpokenStep(t, b, a, k);
      }
    }
  }

  lemma {:induction false} TalkRun(t: Transport, b: Bus, actions: seq<Action>)
    requires Inv(t, b) && Talk(b) && Runs(t, b, actions)
    ensures Inv(t, After(t, b, actions)) && Talk(After(t, b, actions))
    decreases |actions|
  {
    hide Step, Enabled, Inv, Talk;
    if actions != [] {
      InvStep(t, b, actions[0]);
      TalkStep(t, b, actions[0]);
      TalkRun(t, Step(t, b, actions[0]), actions[1..]);
    }
  }

  /** The drain never waits for a consumer nobody told: while a call waits for the consumers each of
      them was told to drain, and once the stop of a forced shutdown is over each was stopped. */
  lemma AwaitedWereTold(t: Transport, actions: seq<Action>)
    requires Runs(t, IDLE, actions)
    ensures var b := After(t, IDLE, actions);
            && (forall k | 0 <= k < |b.callers| && b.callers[k].Draining? :: AllTold(b, |b.draining|))
            && (b.stopDone ==> AllStopped(b, |b.draining|))
  {
    hide Step, Enabled;
    TalkRun(t, IDLE, actions);
    var b := After(t, IDLE, actions);
    forall k | 0 <= k < |b.callers| && b.callers[k].Draining? ensures AllTold(b, |b.draining|) {
      assert Spoken(b, b.callers[k]);
    }
  }

  // ---------- an expired context ends a Shutdown call ----------

  predicate Returned(p: Caller) {
    p.ReturnedNil? || p.ReturnedErr?
  }

  /** The own steps a call has left, at most, with n consumers to drain. */
  function Left(n: nat, p: Caller): nat {
    match p
    case Begun => 9 + n
    case Telling(i) => if i <= n then 9 + 3 * n - i else 0
    case Draining(i) => if i <= n then 8 + 2 * n - i else 0
    case Following => 8 + n
    case Stopping(_) => 7 + n
    case StopLoop(_, i) => if i <= n then 6 + n - i else 0
    case Interrupting(_) => 5
    case Disconnecting(_) => 4
    case EndDrain(_) => 3
    case Waiting => 2
    case Hanging(_) => 1
    case ReturnedNil => 0
    case ReturnedErr => 0
  }

  function LoopLeft(n: nat): Caller -> nat {
    (p: Caller) => if p.StopLoop? && p.i <= n then n + 1 - p.i else 0
  }

  function BeforeStop(b: Bus): nat {
    if b.stopUsed then 0 else |b.draining| + 2
  }

  /** What call k still has to do, and the guarded stop it may have to wait for. */
  ghost function Due(b: Bus, k: nat): nat
    requires k < |b.callers|
  {
    Left(|b.draining|, b.callers[k]) + Sum(LoopLeft(|b.draining|), b.callers) + BeforeStop(b)
  }

  predicate InStop(a: Action) {
    a.StopNext? || a.StopOver?
  }

  /** A step that moves call k, or the one inside the guarded stop. */
  predicate Serves(t: Transport, b: Bus, a: Action, k: nat) {
    && Enabled(b, a)
    && (InStop(a) || (Moves(a) && a.k == k && k < |b.callers|
                      && var c := Step(t, b, a); k < |c.callers| && c.callers[k] != b.callers[k]))
  }

  ghost function Served(t: Transport, b: Bus, actions: seq<Action>, k: nat): nat
    requires Runs(t, b, actions)
    decreases |actions|
  {
    if actions == [] then 0
    else (if Serves(t, b, actions[0], k) then 1 else 0) + Served(t, Step(t, b, actions[0]), actions[1..], k)
  }

  /** What a step of caller k does to its own part of the measure. */
  ghost predicate Lowers(b: Bus, c: Bus, k: nat, stop: bool) {
    && k < |b.callers| && k < |c.callers|
    && var n := |b.draining|;
       && (c.callers[k] != b.callers[k] ==> Left(n, c.callers[k]) < Left(n, b.callers[k]))
       && LoopLeft(n)(c.callers[k]) + BeforeStop(c) + (if stop then 1 else 0)
          <= LoopLeft(n)(b.callers[k]) + BeforeStop(b)
  }

  lemma DrainLowers(t: Transport, b: Bus, a: Action)
    requires Drains(a) && DrainEnabled(b, a) && b.drained != NotMade && CallerOk(b, b.callers[a.k])
    ensures Lowers(b, DrainStep(t, b, a), a.k, false)
  {
    hide AllReported;
  }

  lemma ForceLowers(t: Transport, b: Bus, a: Action)
    requires Forces(a) && ForceEnabled(b, a) && CallerOk(b, b.callers[a.k])
    ensures Lowers(b, ForceStep(t, b, a), a.k, InStop(a))
  {
    hide AllReported;
  }

  lemma EndLowers(t: Transport, b: Bus, a: Action)
    requires Ends(a) && EndEnabled(b, a)
    ensures Lowers(b, EndStep(t, b, a), a.k, false)
  {
    hide WaitStep, InterruptStep;
  }

  lemma MoverLowers(t: Transport, b: Bus, a: Action)
    requires Inv(t, b) && Enabled(b, a) && Moves(a) && b.drained != NotMade
    ensures Lowers(b, Step(t, b, a), a.k, InStop(a))
  {
    hide DrainStep, ForceStep, EndStep, DrainEnabled, ForceEnabled, EndEnabled, LifeOk, ListsOk, CallerOk, Lowers;
    InRange(b, a);
    if Drains(a) {
      DrainLowers(t, b, a);
    } else if Forces(a) {
      ForceLowers(t, b, a);
    } else {
      EndLowers(t, b, a);
    }
  }

  lemma DueMoved(b: Bus, c: Bus, j: nat, k: nat, stop: bool)
    requires Lowers(b, c, j, stop) && k < |b.callers| == |c.callers|
    requires c.callers == b.callers[j := c.callers[j]] && c.draining == b.draining
    ensures Due(c, k) + (if stop || c.callers[k] != b.callers[k] then 1 else 0) <= Due(b, k)
  {
    hide Left, LoopLeft, BeforeStop;
    SumUpdate(LoopLeft(|b.draining|), b.callers, j, c.callers[j]);
  }

  lemma DueAside(t: Transport, b: Bus, a: Action, k: nat)
    requires Enabled(b, a) && !Moves(a) && k < |b.callers| && b.drained != NotMade
    ensures var c := Step(t, b, a); k < |c.callers| && Due(c, k) == Due(b, k)
  {
    hide AsideStep, AsideEnabled, Left;
    HeardStep(t, b, a);
    if Aside(a) {
      AsideCallers(b, a);
      AsideStop(b, a);
    } else {
      SumAppend(LoopLeft(|b.draining|), b.callers, Begun);
    }
  }

  /** No step raises what is due, and a step that serves the call lowers it. */
  lemma DueStep(t: Transport, b: Bus, a: Action, k: nat)
    requires Inv(t, b) && Enabled(b, a) && k < |b.callers| && b.drained != NotMade
    ensures var c := Step(t, b, a);
            && k < |c.callers| && c.drained != NotMade && c.draining == b.draining
            && Due(c, k) + (if Serves(t, b, a, k) then 1 else 0) <= Due(b, k)
  {
    hide Step, Enabled, Inv, CallerOk, Due, Lowers;
    HeardStep(t, b, a);
    if Moves(a) {
      MoverLowers(t, b, a);
      MoverOk(t, b, a);
      DueMoved(b, Step(t, b, a), a.k, k, InStop(a));
    } else {
      DueAside(t, b, a, k);
    }
  }

  lemma {:induction false} DueRun(t: Transport, b: Bus, more: seq<Action>, k: nat)
    requires Inv(t, b) && Runs(t, b, more) && k < |b.callers| && b.drained != NotMade
    ensures var c := After(t, b, more);
            k < |c.callers| && c.drained != NotMade && Served(t, b, more, k) + Due(c, k) <= Due(b, k)
    decreases |more|
  {
    hide Step, Enabled, Inv, Due, Serves;
    if more != [] {
      DueStep(t, b, more[0], k);
      InvStep(t, b, more[0]);
      DueRun(t, Step(t, b, more[0]), more[1..], k);
    }
  }

  lemma {:induction false} LoopsBound(n: nat, callers: seq<Caller>)
    requires Sum(Loops, callers) <= 1
    ensures Sum(LoopLeft(n), callers) <= if Sum(Loops, callers) == 0 then 0 else n + 1
  {
    if callers != [] {
      LoopsBound(n, callers[..|callers| - 1]);
    }
  }

  lemma DueBound(b: Bus, k: nat)
    requires k < |b.callers| && Talk(b)
    ensures Due(b, k) <= 4 * |b.draining| + 11
  {
    hide Known, Spoken, AllStopped;
    LoopsBound(|b.draining|, b.callers);
  }

  /** A step a call can take once its context expired, without a report, a drain or an idle bus to
      wait for. */
  predicate Alone(a: Action) {
    !a.NextClosed? && !a.DrainForced? && !a.FollowerGoes? && !a.WaitRound?
  }

  /** The next step of a call whose context expired. */
  function NextOf(b: Bus, k: nat): Action
    requires k < |b.callers|
  {
    match b.callers[k]
    case Begun => Elect(k)
    case Telling(i) => if i == |b.draining| then TellOver(k) else Tell(k)
    case Draining(i) => if i == |b.draining| then DrainOver(k) else DrainExpired(k)
    case Following => FollowerExpired(k)
    case Stopping(_) => StopBegin(k)
    case StopLoop(_, i) => if i == |b.draining| then StopOver(k) else StopNext(k)
    case Interrupting(_) => ForceInterrupt(k)
    case Disconnecting(_) => Disconnect(k)
    case EndDrain(_) => CloseDrained(k)
    case Hanging(_) => HangUp(k)
    case _ => WaitExpired(k)
  }

  lemma NextIsEnabled(b: Bus, k: nat)
    requires k < |b.callers| && CallerOk(b, b.callers[k]) && Known(b) && !Returned(b.callers[k])
    requires b.callers[k].Stopping? && b.stopUsed ==> b.stopDone
    ensures Enabled(b, NextOf(b, k)) && Moves(NextOf(b, k)) && NextOf(b, k).k == k && Alone(NextOf(b, k))
  {
  }

  lemma DrainServes(t: Transport, b: Bus, k: nat)
    requires k < |b.callers| && Drains(NextOf(b, k)) && DrainEnabled(b, NextOf(b, k))
    ensures DrainStep(t, b, NextOf(b, k)).callers[k] != b.callers[k]
  {
  }

  lemma ForceServes(t: Transport, b: Bus, k: nat)
    requires k < |b.callers| && Forces(NextOf(b, k)) && ForceEnabled(b, NextOf(b, k))
    ensures ForceStep(t, b, NextOf(b, k)).callers[k] != b.callers[k]
  {
  }

  lemma EndServes(t: Transport, b: Bus, k: nat)
    requires k < |b.callers| && Ends(NextOf(b, k)) && EndEnabled(b, NextOf(b, k))
    ensures EndStep(t, b, NextOf(b, k)).callers[k] != b.callers[k]
  {
  }

  lemma NextServes(t: Transport, b: Bus, k: nat)
    requires Inv(t, b) && Talk(b) && k < |b.callers| && !Returned(b.callers[k])
    requires b.callers[k].Stopping? && b.stopUsed ==> b.stopDone
    ensures Serves(t, b, NextOf(b, k), k) && NextOf(b, k).k == k && Alone(NextOf(b, k))
  {
    hide DrainStep, ForceStep, EndStep, LifeOk, ListsOk, AllReported, NextOf, Spoken, Once, Known;
    NextIsEnabled(b, k);
    MoverOk(t, b, NextOf(b, k));
    if Drains(NextOf(b, k)) {
      DrainServes(t, b, k);
    } else if Forces(NextOf(b, k)) {
      ForceServes(t, b, k);
    } else {
      EndServes(t, b, k);
    }
  }

  /** A call that has not returned can go on, its own context being enough; a call at the guarded stop
      may wait for the one inside, and then that one can go on. */
  lemma GoesOn(t: Transport, b: Bus, k: nat) returns (a: Action)
    requires Inv(t, b) && Talk(b) && k < |b.callers| && !Returned(b.callers[k])
    ensures Serves(t, b, a, k) && Alone(a)
  {
    hide Step, Enabled, Inv, Known, Spoken;
    var j := k;
    if b.callers[k].Stopping? && b.stopUsed && !b.stopDone {
      j := SumWitness(Loops, b.callers);
    }
    NextServes(t, b, j);
    a := NextOf(b, j);
  }

  lemma IdleOk(t: Transport)
    ensures Inv(t, IDLE) && Talk(IDLE)
  {
  }

  /** An expired context ends every Shutdown call, whatever the consumers, the handlers and the other
      calls do: from the election on, no schedule takes more than 4n + 11 steps of the call and of the
      one inside the guarded stop, n the number of consumers; and as long as the call has not
      returned, one of those steps is enabled. */
  lemma ExpiredCallReturns(t: Transport, actions: seq<Action>, more: seq<Action>, k: nat) returns (a: Action)
    requires Runs(t, IDLE, actions) && Runs(t, After(t, IDLE, actions), more)
    requires k < |After(t, IDLE, actions).callers| && After(t, IDLE, actions).drained != NotMade
    ensures var b := After(t, IDLE, actions);
            var c := After(t, b, more);
            && Served(t, b, more, k) <= 4 * |b.draining| + 11
            && k < |c.callers| && (Returned(c.callers[k]) || (Serves(t, c, a, k) && Alone(a)))
  {
    hide Step, Enabled, Inv, Talk, Serves, Due;
    IdleOk(t);
    TalkRun(t, IDLE, actions);
    var b := After(t, IDLE, actions);
    var c := After(t, b, more);
    DueRun(t, b, more, k);
    DueBound(b, k);
    TalkRun(t, b, more);
    if !Returned(c.callers[k]) {
      a := GoesOn(t, c, k);
    } else {
      a := Cancel;
    }
  }

  lemma OwnerStays(t: Transport, b: Bus, a: Action, o: nat)
    requires Inv(t, b) && Enabled(b, a) && o < |b.callers| && Owns(b.callers[o]) > 0
    ensures var c := Step(t, b, a); c.drained == Shut || (o < |c.callers| && Owns(c.callers[o]) > 0)
  {
    hide Step, Enabled, LifeOk, ListsOk, CallerOk;
    SumAtLeast(Owns, b.callers, o);
    StepGrows(t, b, a);
    if Moves(a) && a.k == o {
      MoverOk(t, b, a);
    } else {
      CallerStays(t, b, a, o);
    }
  }

  lemma {:induction false} OwnerRun(t: Transport, b: Bus, more: seq<Action>, o: nat)
    requires Inv(t, b) && Runs(t, b, more)
    requires b.drained == Shut || (o < |b.callers| && Owns(b.callers[o]) > 0)
    ensures var c := After(t, b, more); c.drained == Shut || (o < |c.callers| && Owns(c.callers[o]) > 0)
    decreases |more|
  {
    hide Step, Enabled, LifeOk, ListsOk, CallerOk, Owns;
    if more != [] {
      StepGrows(t, b, more[0]);
      if b.drained != Shut {
        OwnerStays(t, b, more[0], o);
      }
      InvStep(t, b, more[0]);
      OwnerRun(t, Step(t, b, more[0]), more[1..], o);
    }
  }

  /** No Shutdown call waits for long on a drain somebody else owns: the open drain a call follows has
      an owner, and once the owner's context expired at most 4n + 11 steps of the owner and of the one
      inside the guarded stop close the drained channel, on every schedule. */
  lemma FollowedDrainEnds(t: Transport, actions: seq<Action>, k: nat, more: seq<Action>)
    returns (o: nat, a: Action)
    requires Runs(t, IDLE, actions) && Runs(t, After(t, IDLE, actions), more)
    requires var b := After(t, IDLE, actions); k < |b.callers| && b.callers[k] == Following && b.drained != Shut
    ensures var b := After(t, IDLE, actions);
            && o < |b.callers| && Owns(b.callers[o]) > 0
            && Served(t, b, more, o) <= 4 * |b.draining| + 11
            && (After(t, b, more).drained == Shut || (Serves(t, After(t, b, more), a, o) && Alone(a)))
  {
    hide Step, Enabled, LifeOk, ListsOk, Talk, Serves, AllReported;
    IdleOk(t);
    TalkRun(t, IDLE, actions);
    var b := After(t, IDLE, actions);
    assert CallerOk(b, b.callers[k]);
    o := SumWitness(Owns, b.callers);
    a := ExpiredCallReturns(t, actions, more, o);
    OwnerRun(t, b, more, o);
  }

  // ---------- a Shutdown in time is not forced ----------

  /** No context of a Shutdown call expires in this step. */
  predicate InTime(a: Action) {
    !a.DrainExpired? && !a.FollowerExpired? && !a.WaitExpired?
  }

  /** The phases of a call nobody forced. */
  predicate Unforced(p: Caller) {
    match p
    case Stopping(_) => false
    case StopLoop(_, _) => false
    case Interrupting(_) => false
    case Disconnecting(_) => false
    case EndDrain(failed) => !failed
    case Hanging(failed) => !failed
    case ReturnedErr => false
    case _ => true
  }

  predicate Owning(x: Subscriber) {
    x.Consuming? || x.Subscribed?
  }

  /** Every subscription has a consumer of its own, and nobody stopped it. */
  ghost predicate Unstopped(b: Bus) {
    && (forall s | 0 <= s < |b.subscribers| && Owning(b.subscribers[s]) ::
          b.subscribers[s].c < |b.consumers| && !b.consumers[b.subscribers[s].c].stopped)
    && (forall r, s | 0 <= r < s < |b.subscribers| && Owning(b.subscribers[r]) && Owning(b.subscribers[s]) ::
          b.subscribers[r].c != b.subscribers[s].c)
  }

  ghost predicate AllUnforced(b: Bus) {
    forall k | 0 <= k < |b.callers| :: Unforced(b.callers[k])
  }

  ghost predicate Calm(b: Bus) {
    !b.life.forced && !b.cancelled && AllUnforced(b) && Unstopped(b)
  }

  lemma WorkKeepsFlags(l: Life, nested: bool)
    ensures AdmitStep(l, nested).0.closed == l.closed && AdmitStep(l, nested).0.forced == l.forced
    ensures TrackStep(l).0.closed == l.closed && TrackStep(l).0.forced == l.forced
    ensures ReleaseStep(l).closed == l.closed && ReleaseStep(l).forced == l.forced
  {
  }

  lemma AsideCalm(b: Bus, a: Action)
    requires Calm(b) && Aside(a) && AsideEnabled(b, a)
    ensures Calm(AsideStep(b, a))
  {
    hide AdmitStep, TrackStep, ReleaseStep;
    WorkKeepsFlags(b.life, if a.Admit? then a.nested else false);
  }

  lemma DrainCalm(t: Transport, b: Bus, a: Action)
    requires Calm(b) && Drains(a) && DrainEnabled(b, a) && InTime(a)
    ensures Calm(DrainStep(t, b, a))
  {
  }

  lemma ForceNotCalm(b: Bus, a: Action)
    requires Forces(a) && ForceEnabled(b, a)
    ensures !AllUnforced(b)
  {
    assert !Unforced(b.callers[a.k]);
  }

  lemma EndCalm(t: Transport, b: Bus, a: Action)
    requires Calm(b) && Ends(a) && EndEnabled(b, a) && InTime(a)
    ensures Calm(EndStep(t, b, a))
  {
    hide WaitStep;
    WaitKeeps(b.life);
    assert Unforced(b.callers[a.k]);
  }

  lemma CalmStep(t: Transport, b: Bus, a: Action)
    requires Calm(b) && Enabled(b, a) && InTime(a)
    ensures Calm(Step(t, b, a))
  {
    hide AsideStep, DrainStep, ForceStep, EndStep, DrainEnabled, ForceEnabled, EndEnabled, Unstopped;
    if Aside(a) {
      AsideCalm(b, a);
    } else if Drains(a) {
      DrainCalm(t, b, a);
    } else if Ends(a) {
      EndCalm(t, b, a);
    } else if !Forces(a) {
      CallCalm(t, b, a);
    } else {
      ForceNotCalm(b, a);
    }
  }

  lemma CallCalm(t: Transport, b: Bus, a: Action)
    requires Calm(b) && a.Call?
    ensures Calm(Step(t, b, a))
  {
  }

  lemma IdleIsCalm()
    ensures Calm(IDLE)
  {
  }

  lemma {:induction false} CalmRun(t: Transport, b: Bus, actions: seq<Action>)
    requires Calm(b) && Runs(t, b, actions) && forall i | 0 <= i < |actions| :: InTime(actions[i])
    ensures Calm(After(t, b, actions))
    decreases |actions|
  {
    hide Step, Enabled, Calm;
    if actions != [] {
      CalmStep(t, b, actions[0]);
      CalmRun(t, Step(t, b, actions[0]), actions[1..]);
    }
  }

  /** As long as no context of a Shutdown call expires, nothing is forced, in any interleaving: the
      handlers are not interrupted, no call fails or takes a forcing path, and no consumer whose
      Subscribe succeeded is stopped. */
  lemma InTimeIsUnforced(t: Transport, actions: seq<Action>)
    requires Runs(t, IDLE, actions) && forall i | 0 <= i < |actions| :: InTime(actions[i])
    ensures var b := After(t, IDLE, actions);
            && !b.life.forced && !b.cancelled
            && (forall k | 0 <= k < |b.callers| :: Unforced(b.callers[k]))
            && (forall s | 0 <= s < |b.subscribers| && b.subscribers[s].Subscribed? ::
                  b.subscribers[s].c < |b.consumers| && !b.consumers[b.subscribers[s].c].stopped)
  {
    hide Step, Enabled;
    CalmRun(t, IDLE, actions);
  }

  // ---------- and it returns nil ----------

  /** What a call that starts now would wait for, or the calls there are do. */
  function Awaited(b: Bus): seq<nat> {
    if b.drained == NotMade then b.list else b.draining
  }

  /** The bus is idle and every consumer reported Closed. */
  ghost predicate Settled(b: Bus) {
    && b.life.inflight == 0
    && forall j | 0 <= j < |Awaited(b)| :: Awaited(b)[j] < |b.consumers| && b.consumers[Awaited(b)[j]].closed
  }

  /** Call k waits for nobody else: it is the owner, or will be, or the drain it follows is over. */
  predicate Free(b: Bus, k: nat) {
    && k < |b.callers| && Unforced(b.callers[k])
    && (b.callers[k].Following? ==> b.drained == Shut)
    && (b.callers[k].Begun? ==> b.drained != Open)
    && (b.callers[k].Telling? || b.callers[k].Draining? ==>
          b.drained == Open && b.callers[k].i <= |b.draining|)
  }

  /** The own steps such a call has left. */
  function StepsLeft(b: Bus, k: nat): nat
    requires k < |b.callers|
  {
    var n := |Awaited(b)|;
    match b.callers[k]
    case Begun => if b.drained == NotMade then 2 * n + 6 else 4
    case Telling(i) => if i <= n then 2 * n + 5 - i else 0
    case Draining(i) => if i <= n then n + 4 - i else 0
    case Following => 3
    case EndDrain(_) => 3
    case Waiting => 2
    case Hanging(_) => 1
    case _ => 0
  }

  function InTimeNext(b: Bus, k: nat): Action
    requires k < |b.callers|
  {
    match b.callers[k]
    case Begun => Elect(k)
    case Telling(i) => if i == |b.draining| then TellOver(k) else Tell(k)
    case Draining(i) => if i == |b.draining| then DrainOver(k) else NextClosed(k)
    case Following => FollowerGoes(k)
    case EndDrain(_) => CloseDrained(k)
    case Hanging(_) => HangUp(k)
    case _ => WaitRound(k)
  }

  /** What one such step does. */
  ghost predicate Nearer(b: Bus, c: Bus, k: nat) {
    && Settled(c) && Free(c, k) && k < |b.callers| && |c.callers| == |b.callers|
    && StepsLeft(c, k) < StepsLeft(b, k)
    && (forall j | 0 <= j < |b.callers| && j != k :: c.callers[j] == b.callers[j])
    && (b.drained == Shut ==> c.drained == Shut)
    && (b.drained != NotMade ==> c.drained != NotMade && c.draining == b.draining)
  }

  lemma ElectNearer(t: Transport, b: Bus, k: nat)
    requires Settled(b) && Free(b, k) && b.callers[k].Begun?
    ensures DrainEnabled(b, Elect(k)) && Nearer(b, DrainStep(t, b, Elect(k)), k)
  {
    assert Awaited(DrainStep(t, b, Elect(k))) == Awaited(b);
  }

  lemma TellNearer(t: Transport, b: Bus, k: nat)
    requires Settled(b) && Free(b, k) && b.callers[k].Telling?
    ensures var a := InTimeNext(b, k);
            Drains(a) && DrainEnabled(b, a) && Nearer(b, DrainStep(t, b, a), k)
  {
    assert b.drained != NotMade && Awaited(b) == b.draining;
    if b.callers[k].i < |b.draining| {
      assert Awaited(b)[b.callers[k].i] < |b.consumers|;
    }
  }

  lemma DrainNearer(t: Transport, b: Bus, k: nat)
    requires Settled(b) && Free(b, k) && (b.callers[k].Draining? || b.callers[k].Following?)
    ensures var a := InTimeNext(b, k);
            Drains(a) && DrainEnabled(b, a) && Nearer(b, DrainStep(t, b, a), k)
  {
    assert b.drained != NotMade && Awaited(b) == b.draining;
    if !b.callers[k].Following? && b.callers[k].i < |b.draining| {
      assert Awaited(b)[b.callers[k].i] < |b.consumers|;
    }
  }

  lemma EndNearer(t: Transport, b: Bus, k: nat)
    requires Settled(b) && Free(b, k) && b.drained != NotMade
    requires b.callers[k].EndDrain? || b.callers[k].Waiting? || b.callers[k].Hanging?
    ensures var a := InTimeNext(b, k);
            Ends(a) && EndEnabled(b, a) && Nearer(b, EndStep(t, b, a), k)
  {
    assert Awaited(EndStep(t, b, InTimeNext(b, k))) == b.draining == Awaited(b);
  }

  lemma NextNearer(t: Transport, b: Bus, k: nat)
    requires Settled(b) && Free(b, k) && !Returned(b.callers[k]) && CallerOk(b, b.callers[k])
    requires b.callers[k].EndDrain? ==> b.drained == Open
    ensures var a := InTimeNext(b, k);
            && Enabled(b, a) && InTime(a) && Moves(a) && a.k == k && Nearer(b, Step(t, b, a), k)
  {
    hide DrainStep, EndStep, DrainEnabled, EndEnabled, Nearer, Settled, AllReported;
    if b.callers[k].Begun? {
      ElectNearer(t, b, k);
    } else if b.callers[k].Telling? {
      TellNearer(t, b, k);
    } else if b.callers[k].Draining? || b.callers[k].Following? {
      DrainNearer(t, b, k);
    } else {
      EndNearer(t, b, k);
    }
  }

  /** All steps of the run are steps of call k in time. */
  ghost predicate OwnSteps(actions: seq<Action>, k: nat) {
    forall i | 0 <= i < |actions| :: InTime(actions[i]) && Moves(actions[i]) && actions[i].k == k
  }

  lemma {:induction false} FreeCallReturns(t: Transport, b: Bus, k: nat) returns (more: seq<Action>)
    requires Inv(t, b) && Settled(b) && Free(b, k)
    ensures Runs(t, b, more) && OwnSteps(more, k) && |more| <= StepsLeft(b, k)
    ensures var c := After(t, b, more);
            && Inv(t, c) && Settled(c) && |c.callers| == |b.callers| && c.callers[k] == ReturnedNil
            && (forall j | 0 <= j < |b.callers| && j != k :: c.callers[j] == b.callers[j])
            && (b.drained == Shut ==> c.drained == Shut)
            && (b.drained != NotMade ==> c.draining == b.draining)
    decreases StepsLeft(b, k)
  {
    hide Step, Enabled, LifeOk, ListsOk, CallerOk, Settled, StepsLeft, InTimeNext;
    if Returned(b.callers[k]) {
      return [];
    }
    SumAtLeast(Owns, b.callers, k);
    NextNearer(t, b, k);
    var a := InTimeNext(b, k);
    InvStep(t, b, a);
    var rest := FreeCallReturns(t, Step(t, b, a), k);
    more := [a] + rest;
    assert more[1..] == rest;
  }

  lemma {:induction false} RunsConcat(t: Transport, b: Bus, first: seq<Action>, second: seq<Action>)
    requires Runs(t, b, first) && Runs(t, After(t, b, first), second)
    ensures Runs(t, b, first + second) && After(t, b, first + second) == After(t, After(t, b, first), second)
    decreases |first|
  {
    hide Step, Enabled;
    if first == [] {
      assert first + second == second;
    } else {
      assert (first + second)[1..] == first[1..] + second;
      RunsConcat(t, Step(t, b, first[0]), first[1..], second);
    }
  }

  lemma NotOwner(b: Bus, p: Caller)
    requires CallerOk(b, p) && Owns(p) > 0 && Unforced(p)
    ensures p.Telling? || p.Draining? || p.EndDrain?
    ensures p.Telling? || p.Draining? ==> p.i <= |b.draining|
  {
  }

  lemma CalmReturnsNil(t: Transport, b: Bus, k: nat) returns (o: nat, more: seq<Action>)
    requires Inv(t, b) && AllUnforced(b) && Settled(b) && k < |b.callers|
    ensures Runs(t, b, more) && |After(t, b, more).callers| == |b.callers|
    ensures After(t, b, more).callers[k] == ReturnedNil && |more| <= 2 * |Awaited(b)| + 9
    ensures forall i | 0 <= i < |more| ::
              InTime(more[i]) && Moves(more[i]) && (more[i].k == k || more[i].k == o)
    ensures o == k || (o < |b.callers| && Owns(b.callers[o]) > 0)
  {
    hide Step, Enabled, LifeOk, ListsOk, AllReported, Settled;
    SumAtLeast(Owns, b.callers, k);
    o := k;
    if Free(b, k) {
      more := FreeCallReturns(t, b, k);
      return;
    }
    o := SumWitness(Owns, b.callers);
    assert CallerOk(b, b.callers[o]) && Unforced(b.callers[o]);
    NotOwner(b, b.callers[o]);
    var first := FreeCallReturns(t, b, o);
    var c := After(t, b, first);
    assert CallerOk(c, c.callers[o]);
    var second := FreeCallReturns(t, c, k);
    RunsConcat(t, b, first, second);
    more := first + second;
  }

  /** A Shutdown in time returns nil: in any interleaving in which no context expired, once the bus is
      idle and every consumer reported Closed, each call still at work can return nil within 2n + 9
      steps, its own and those of the drain's owner, none of them an expiry. */
  lemma InTimeReturnsNil(t: Transport, actions: seq<Action>, k: nat) returns (o: nat, more: seq<Action>)
    requires Runs(t, IDLE, actions) && forall i | 0 <= i < |actions| :: InTime(actions[i])
    requires k < |After(t, IDLE, actions).callers| && Settled(After(t, IDLE, actions))
    ensures var b := After(t, IDLE, actions);
            && Runs(t, b, more) && |After(t, b, more).callers| == |b.callers|
            && After(t, b, more).callers[k] == ReturnedNil
            && |more| <= 2 * |Awaited(b)| + 9
            && (forall i | 0 <= i < |more| ::
                  InTime(more[i]) && Moves(more[i]) && (more[i].k == k || more[i].k == o))
            && (o == k || (o < |b.callers| && Owns(b.callers[o]) > 0))
  {
    hide Step, Enabled, Inv, Unstopped, AllUnforced, Talk, Settled;
    IdleOk(t);
    IdleIsCalm();
    InvRun(t, IDLE, actions);
    CalmRun(t, IDLE, actions);
    o, more := CalmReturnsNil(t, After(t, IDLE, actions), k);
  }

  /** Handlers that end, and consumers that report Closed. */
  predicate WindsDown(a: Action) {
    a.Release? || a.ReportClosed?
  }

  /** What such steps leave alone. */
  ghost predicate SameDrain(b: Bus, c: Bus) {
    && c.callers == b.callers && c.drained == b.drained && Awaited(c) == Awaited(b)
    && |c.consumers| == |b.consumers|
    && (forall j | 0 <= j < |b.consumers| && b.consumers[j].closed :: c.consumers[j].closed)
  }

  lemma {:induction false} ReleaseAll(t: Transport, b: Bus) returns (more: seq<Action>)
    requires b.life.inflight >= 0
    ensures Runs(t, b, more) && forall i | 0 <= i < |more| :: WindsDown(more[i])
    ensures var c := After(t, b, more); SameDrain(b, c) && c.life.inflight == 0
    decreases b.life.inflight
  {
    if b.life.inflight == 0 {
      return [];
    }
    var c := Step(t, b, Action.Release);
    var rest := ReleaseAll(t, c);
    more := [Action.Release] + rest;
    assert more[1..] == rest;
  }

  lemma {:induction false} ReportAll(t: Transport, b: Bus, j: nat) returns (more: seq<Action>)
    requires j <= |Awaited(b)| && forall i | 0 <= i < |Awaited(b)| :: Awaited(b)[i] < |b.consumers|
    requires forall i | 0 <= i < j :: b.consumers[Awaited(b)[i]].closed
    ensures Runs(t, b, more) && forall i | 0 <= i < |more| :: WindsDown(more[i])
    ensures var c := After(t, b, more);
            && SameDrain(b, c) && c.life == b.life
            && forall i | 0 <= i < |Awaited(c)| :: Awaited(c)[i] < |c.consumers| && c.consumers[Awaited(c)[i]].closed
    decreases |Awaited(b)| - j
  {
    hide Awaited;
    if j == |Awaited(b)| {
      return [];
    }
    var a := ReportClosed(Awaited(b)[j]);
    ReportStays(t, b, Awaited(b)[j]);
    var rest := ReportAll(t, Step(t, b, a), j + 1);
    more := [a] + rest;
    assert more[1..] == rest;
  }

  lemma ReportStays(t: Transport, b: Bus, c: nat)
    requires c < |b.consumers|
    ensures Enabled(b, ReportClosed(c))
    ensures var u := Step(t, b, ReportClosed(c));
            SameDrain(b, u) && u.life == b.life && u.consumers[c].closed
  {
  }

  lemma AwaitedKnown(b: Bus)
    requires Known(b)
    ensures forall i | 0 <= i < |Awaited(b)| :: Awaited(b)[i] < |b.consumers|
  {
  }

  /** A Shutdown in time can finish: in any interleaving in which no context expired, every call still
      at work returns nil once the running handlers end and the consumers report Closed. */
  lemma ShutdownCanFinish(t: Transport, actions: seq<Action>, k: nat) returns (more: seq<Action>)
    requires Runs(t, IDLE, actions) && forall i | 0 <= i < |actions| :: InTime(actions[i])
    requires k < |After(t, IDLE, actions).callers|
    ensures Runs(t, After(t, IDLE, actions), more)
    ensures var c := After(t, After(t, IDLE, actions), more);
            k < |c.callers| && c.callers[k] == ReturnedNil
    ensures forall i | 0 <= i < |more| :: WindsDown(more[i]) || (Moves(more[i]) && InTime(more[i]))
  {
    hide Step, Enabled, ListsOk, CallersOk, Awaited, Once, Spoken;
    var b := After(t, IDLE, actions);
    IdleOk(t);
    TalkRun(t, IDLE, actions);
    AwaitedKnown(b);
    var first := ReleaseAll(t, b);
    var c := After(t, b, first);
    var second := ReportAll(t, c, 0);
    RunsConcat(t, b, first, second);
    RunsConcat(t, IDLE, actions, first + second);
    var o, third := InTimeReturnsNil(t, actions + (first + second), k);
    RunsConcat(t, b, first + second, third);
    more := first + second + third;
  }

  // ---------- who may subscribe ----------

  lemma AsideOpen(b: Bus, a: Action)
    requires Aside(a) && AsideEnabled(b, a)
    ensures var c := AsideStep(b, a); c.life.closed == b.life.closed && c.life.forced == b.life.forced
  {
    hide AdmitStep, TrackStep, ReleaseStep;
    WorkKeepsFlags(b.life, if a.Admit? then a.nested else false);
  }

  lemma ClosedByCall(t: Transport, b: Bus, a: Action)
    requires Inv(t, b) && Enabled(b, a) && (b.callers == [] ==> !b.life.closed && !b.life.forced)
    ensures var c := Step(t, b, a); c.callers == [] ==> !c.life.closed && !c.life.forced
  {
    hide AsideStep, DrainStep, ForceStep, EndStep, Inv, CallerOk;
    if Aside(a) {
      AsideOpen(b, a);
      AsideCallers(b, a);
    } else if Moves(a) {
      MoverOk(t, b, a);
    }
  }

  lemma {:induction false} ClosedByCallRun(t: Transport, b: Bus, actions: seq<Action>)
    requires Inv(t, b) && Runs(t, b, actions) && (b.callers == [] ==> !b.life.closed && !b.life.forced)
    ensures var c := After(t, b, actions); c.callers == [] ==> !c.life.closed && !c.life.forced
    decreases |actions|
  {
    hide Step, Enabled, Inv;
    if actions != [] {
      InvStep(t, b, actions[0]);
      ClosedByCall(t, b, actions[0]);
      ClosedByCallRun(t, Step(t, b, actions[0]), actions[1..]);
    }
  }

  /** In every interleaving a Subscribe succeeds if and only if no Shutdown call began before it
      registered: then its consumer is on the list the drain takes; otherwise the consumer is stopped
      and left out. The check before consuming answers in the same way. */
  lemma SubscribesExactly(t: Transport, actions: seq<Action>, s: nat)
    requires Runs(t, IDLE, actions) && Enabled(After(t, IDLE, actions), Register(s))
    ensures var b := After(t, IDLE, actions);
            var c := Step(t, b, Register(s));
            var x := b.subscribers[s].c;
            && (if b.callers == [] then
                  c.subscribers[s] == Subscribed(x) && c.list == b.list + [x] && c.consumers == b.consumers
                else
                  && c.subscribers[s] == Refused && c.list == b.list
                  && c.consumers == b.consumers[x := b.consumers[x].(stopped := true)])
            && Step(t, b, SubscribeCheck).subscribers
               == b.subscribers + [if b.callers == [] then Checked else Refused]
  {
    hide ListsOk, CallersOk, Talk;
    IdleOk(t);
    InvRun(t, IDLE, actions);
    ClosedByCallRun(t, IDLE, actions);
  }

  // ---------- what the records of a consumer mean ----------

  ghost predicate Reported(actions: seq<Action>, c: nat) {
    exists i :: 0 <= i < |actions| && actions[i] == ReportClosed(c)
  }

  ghost predicate EverCancelled(actions: seq<Action>) {
    exists i :: 0 <= i < |actions| && actions[i].Cancel?
  }

  predicate ClosedIn(b: Bus, c: nat) {
    c < |b.consumers| && b.consumers[c].closed
  }

  predicate ToldIn(b: Bus, c: nat) {
    c < |b.consumers| && b.consumers[c].draining
  }

  /** Only the consumers a Shutdown call took over are told to drain. */
  ghost predicate OnlyTheDrained(b: Bus) {
    forall c | ToldIn(b, c) :: b.drained != NotMade && c in b.draining
  }

  /** One step and the consumer c. */
  ghost predicate RecordsStep(b: Bus, u: Bus, a: Action, c: nat) {
    && (ClosedIn(u, c) <==> ClosedIn(b, c) || a == ReportClosed(c))
    && (u.cancelled <==> b.cancelled || a.Cancel?)
    && (ToldIn(u, c) ==> ToldIn(b, c) || (a.Tell? && u.drained != NotMade && c in u.draining))
    && (b.drained != NotMade ==> u.drained != NotMade && u.draining == b.draining)
  }

  lemma AsideRecords(b: Bus, a: Action, c: nat)
    requires Aside(a) && AsideEnabled(b, a)
    ensures RecordsStep(b, AsideStep(b, a), a, c)
  {
    hide AdmitStep, TrackStep, ReleaseStep;
  }

  lemma DrainRecords(t: Transport, b: Bus, a: Action, c: nat)
    requires Inv(t, b) && Drains(a) && DrainEnabled(b, a)
    ensures RecordsStep(b, DrainStep(t, b, a), a, c)
  {
    hide LifeOk, CallersOk;
  }

  lemma ForceRecords(t: Transport, b: Bus, a: Action, c: nat)
    requires Forces(a) && ForceEnabled(b, a)
    ensures RecordsStep(b, ForceStep(t, b, a), a, c)
  {
    hide InterruptStep;
  }

  lemma EndRecords(t: Transport, b: Bus, a: Action, c: nat)
    requires Ends(a) && EndEnabled(b, a)
    ensures RecordsStep(b, EndStep(t, b, a), a, c)
  {
    hide InterruptStep, WaitStep;
  }

  lemma StepRecords(t: Transport, b: Bus, a: Action, c: nat)
    requires Inv(t, b) && Enabled(b, a)
    ensures RecordsStep(b, Step(t, b, a), a, c)
  {
    hide AsideStep, DrainStep, ForceStep, EndStep, AsideEnabled, DrainEnabled, ForceEnabled, EndEnabled, Inv;
    if Aside(a) {
      AsideRecords(b, a, c);
    } else if Drains(a) {
      DrainRecords(t, b, a, c);
    } else if Forces(a) {
      ForceRecords(t, b, a, c);
    } else if Ends(a) {
      EndRecords(t, b, a, c);
    }
  }

  lemma ToldStep(t: Transport, b: Bus, a: Action)
    requires Inv(t, b) && Enabled(b, a) && OnlyTheDrained(b)
    ensures OnlyTheDrained(Step(t, b, a))
  {
    hide Step, Enabled, Inv, ToldIn, ClosedIn;
    forall c | ToldIn(Step(t, b, a), c)
      ensures Step(t, b, a).drained != NotMade && c in Step(t, b, a).draining
    {
      StepRecords(t, b, a, c);
    }
  }

  lemma {:induction false} RecordsRun(t: Transport, b: Bus, actions: seq<Action>, c: nat)
    requires Inv(t, b) && Runs(t, b, actions) && OnlyTheDrained(b)
    ensures var u := After(t, b, actions);
            && (ClosedIn(u, c) <==> ClosedIn(b, c) || Reported(actions, c))
            && (u.cancelled <==> b.cancelled || EverCancelled(actions))
            && OnlyTheDrained(u)
    decreases |actions|
  {
    hide Step, Enabled, Inv, OnlyTheDrained, ClosedIn;
    if actions != [] {
      var a, rest := actions[0], actions[1..];
      StepRecords(t, b, a, c);
      ToldStep(t, b, a);
      InvStep(t, b, a);
      RecordsRun(t, Step(t, b, a), rest, c);
      assert forall i | 0 <= i < |rest| :: rest[i] == actions[i + 1];
    }
  }

  /** In every interleaving a consumer counts as closed if and only if it reported Closed, the handlers'
      contexts as ended if and only if they were cancelled, and only a consumer that a Shutdown call took
      over is told to drain. */
  lemma RecordsExactly(t: Transport, actions: seq<Action>, c: nat)
    requires Runs(t, IDLE, actions) && c < |After(t, IDLE, actions).consumers|
    ensures var b := After(t, IDLE, actions);
            && (b.consumers[c].closed <==> Reported(actions, c))
            && (b.cancelled <==> EverCancelled(actions))
            && (b.consumers[c].draining ==> b.drained != NotMade && c in b.draining)
  {
    hide Step, Enabled, Inv;
    IdleOk(t);
    RecordsRun(t, IDLE, actions, c);
    assert ClosedIn(After(t, IDLE, actions), c) <==> Reported(actions, c);
    assert ToldIn(After(t, IDLE, actions), c) ==> c in After(t, IDLE, actions).draining;
  }

  /** An owner that saw every consumer closed is in time, whatever its context says since; only one that
      still waits for a consumer is forced by its context, or gives way to a forced shutdown. */
  lemma SeenClosedIsInTime(t: Transport, b: Bus, a: Action)
    requires Enabled(b, a) && Drains(a) && DrainingAt(b, a.k)
    ensures var i := b.callers[a.k].i;
            var p := Step(t, b, a).callers[a.k];
            && (i == |b.draining| ==> p == EndDrain(false))
            && (p == EndDrain(false) && i < |b.draining| ==> b.cancelled)
  {
  }

  // ---------- what a forced or finished call has done ----------

  /** JetStream stops the consumers before it interrupts; NATS closes the connection before a call
      returns. */
  predicate DidItsPart(t: Transport, b: Bus, p: Caller) {
    && (t == JetStream && (p.Interrupting? || (p.EndDrain? && p.failed)) ==> b.stopDone)
    && (t == Nats && (Returned(p) || (p.EndDrain? && p.failed)) ==> b.connCloses > 0)
  }

  ghost predicate AllDidTheirPart(t: Transport, b: Bus) {
    forall k | 0 <= k < |b.callers| :: DidItsPart(t, b, b.callers[k])
  }

  /** What no step takes back of it. */
  predicate Lasts(b: Bus, c: Bus) {
    (b.stopDone ==> c.stopDone) && (b.connCloses > 0 ==> c.connCloses > 0)
  }

  lemma AsideLasts(b: Bus, a: Action)
    requires Aside(a) && AsideEnabled(b, a)
    ensures Lasts(b, AsideStep(b, a))
  {
  }

  lemma DrainDoes(t: Transport, b: Bus, a: Action)
    requires Drains(a) && DrainEnabled(b, a)
    ensures var c := DrainStep(t, b, a); Lasts(b, c) && a.k < |c.callers| && DidItsPart(t, c, c.callers[a.k])
  {
  }

  lemma ForceDoes(t: Transport, b: Bus, a: Action)
    requires Forces(a) && ForceEnabled(b, a) && DidItsPart(t, b, b.callers[a.k]) && Fits(t, b.callers[a.k])
    ensures var c := ForceStep(t, b, a); Lasts(b, c) && a.k < |c.callers| && DidItsPart(t, c, c.callers[a.k])
  {
  }

  lemma EndDoes(t: Transport, b: Bus, a: Action)
    requires Ends(a) && EndEnabled(b, a) && DidItsPart(t, b, b.callers[a.k])
    ensures var c := EndStep(t, b, a); Lasts(b, c) && a.k < |c.callers| && DidItsPart(t, c, c.callers[a.k])
  {
    hide WaitStep, InterruptStep;
  }

  lemma MoverDoes(t: Transport, b: Bus, a: Action)
    requires Inv(t, b) && AllDidTheirPart(t, b) && Enabled(b, a) && Moves(a)
    ensures var c := Step(t, b, a); Lasts(b, c) && a.k < |c.callers| && DidItsPart(t, c, c.callers[a.k])
  {
    hide DrainStep, ForceStep, EndStep, DrainEnabled, ForceEnabled, EndEnabled, LifeOk, ListsOk, CallerOk, DidItsPart;
    InRange(b, a);
    if Drains(a) {
      DrainDoes(t, b, a);
    } else if Forces(a) {
      ForceDoes(t, b, a);
    } else {
      EndDoes(t, b, a);
    }
  }

  lemma PartStep(t: Transport, b: Bus, a: Action)
    requires Inv(t, b) && AllDidTheirPart(t, b) && Enabled(b, a)
    ensures AllDidTheirPart(t, Step(t, b, a))
  {
    hide AsideStep, DrainStep, ForceStep, EndStep, DrainEnabled, ForceEnabled, EndEnabled, Inv, CallerOk;
    var c := Step(t, b, a);
    if Aside(a) {
      AsideLasts(b, a);
      AsideCallers(b, a);
    } else if Moves(a) {
      MoverDoes(t, b, a);
      MoverOk(t, b, a);
    }
  }

  lemma {:induction false} PartRun(t: Transport, b: Bus, actions: seq<Action>)
    requires Inv(t, b) && AllDidTheirPart(t, b) && Runs(t, b, actions)
    ensures AllDidTheirPart(t, After(t, b, actions))
    decreases |actions|
  {
    hide Step, Enabled, Inv, AllDidTheirPart;
    if actions != [] {
      InvStep(t, b, actions[0]);
      PartStep(t, b, actions[0]);
      PartRun(t, Step(t, b, actions[0]), actions[1..]);
    }
  }

  /** In every interleaving: on JetStream a forced Shutdown interrupts the handlers only after every
      consumer the drain waits for was stopped; on NATS the connection is closed before a call
      returns; and a call fails only after the bus was interrupted. */
  lemma EveryCallDoesItsPart(t: Transport, actions: seq<Action>, k: nat)
    requires Runs(t, IDLE, actions) && k < |After(t, IDLE, actions).callers|
    ensures var b := After(t, IDLE, actions);
            var p := b.callers[k];
            && (t == JetStream && p.Interrupting? ==> AllStopped(b, |b.draining|))
            && (t == Nats && Returned(p) ==> b.connCloses == 1)
            && (p == ReturnedErr ==> b.life.forced && b.life.closed)
  {
    hide Step, Enabled, AllStopped;
    IdleOk(t);
    InvRun(t, IDLE, actions);
    PartRun(t, IDLE, actions);
    TalkRun(t, IDLE, actions);
    var b := After(t, IDLE, actions);
    assert CallerOk(b, b.callers[k]) && DidItsPart(t, b, b.callers[k]);
  }

  // ---------- an expired context is an error ----------

  lemma DrainFails(t: Transport, b: Bus, a: Action)
    requires Drains(a) && DrainEnabled(b, a)
    ensures var c := DrainStep(t, b, a);
            a.k < |c.callers| && (!InTime(a) || !Unforced(b.callers[a.k]) ==> !Unforced(c.callers[a.k]))
  {
  }

  lemma ForceFails(t: Transport, b: Bus, a: Action)
    requires Forces(a) && ForceEnabled(b, a)
    ensures var c := ForceStep(t, b, a); a.k < |c.callers| && !Unforced(c.callers[a.k])
  {
  }

  lemma EndFails(t: Transport, b: Bus, a: Action)
    requires Ends(a) && EndEnabled(b, a)
    ensures var c := EndStep(t, b, a);
            a.k < |c.callers| && (!InTime(a) || !Unforced(b.callers[a.k]) ==> !Unforced(c.callers[a.k]))
  {
    hide WaitStep, InterruptStep;
  }

  lemma FailsStep(t: Transport, b: Bus, a: Action, k: nat)
    requires Inv(t, b) && Enabled(b, a) && k < |b.callers|
    requires !Unforced(b.callers[k]) || (!InTime(a) && a.k == k)
    ensures var c := Step(t, b, a); k < |c.callers| && !Unforced(c.callers[k])
  {
    hide AsideStep, DrainStep, ForceStep, EndStep, DrainEnabled, ForceEnabled, EndEnabled, Inv, Unforced;
    if Moves(a) && a.k == k {
      if Drains(a) {
        DrainFails(t, b, a);
      } else if Forces(a) {
        ForceFails(t, b, a);
      } else {
        EndFails(t, b, a);
      }
    } else {
      CallerStays(t, b, a, k);
    }
  }

  lemma {:induction false} FailsRun(t: Transport, b: Bus, more: seq<Action>, k: nat)
    requires Inv(t, b) && Runs(t, b, more) && k < |b.callers| && !Unforced(b.callers[k])
    ensures var c := After(t, b, more); k < |c.callers| && !Unforced(c.callers[k])
    decreases |more|
  {
    hide Step, Enabled, Inv, Unforced;
    if more != [] {
      FailsStep(t, b, more[0], k);
      InvStep(t, b, more[0]);
      FailsRun(t, Step(t, b, more[0]), more[1..], k);
    }
  }

  /** A Shutdown call whose context expired never returns nil, whatever happens later: the step in which
      it expired sets the call on a path that only ends with the error. */
  lemma ExpiredCallFails(t: Transport, actions: seq<Action>, a: Action, more: seq<Action>)
    requires Runs(t, IDLE, actions) && Enabled(After(t, IDLE, actions), a) && !InTime(a)
    requires Runs(t, Step(t, After(t, IDLE, actions), a), more)
    ensures var c := After(t, Step(t, After(t, IDLE, actions), a), more);
            && a.k < |c.callers|
            && (Returned(c.callers[a.k]) ==> c.callers[a.k] == ReturnedErr)
  {
    hide Step, AsideEnabled, ForceEnabled, LifeOk, ListsOk, CallersOk, Talk;
    var b := After(t, IDLE, actions);
    IdleOk(t);
    InvRun(t, IDLE, actions);
    FailsStep(t, b, a, a.k);
    InvStep(t, b, a);
    FailsRun(t, Step(t, b, a), more, a.k);
  }
}
