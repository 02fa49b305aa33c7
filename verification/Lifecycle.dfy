/** The shutdown state machine shared by every bus (lifecycle.go): admission of new work,
    the in-flight count, the replaceable idle channel Wait blocks on, and the forced cancel.

    A channel is a number. `made` channels have been created so far and `shut` holds the ones
    that were closed; closing a channel twice would panic. */
module Lifecycle {
  import opened Base

  datatype Life = Life(
    closed: bool, forced: bool, done: bool, inflight: int,
    idle: Option<nat>, idleClosed: bool, made: nat, shut: set<nat>)

  const ZERO := Life(false, false, false, 0, None, false, 0, {})

  // ---------- one critical section each ----------

  function AdmitStep(l: Life, nested: bool): (Life, bool) {
    if l.forced || l.done || (l.closed && (!nested || l.inflight <= 0)) then (l, false)
    else (l.(inflight := l.inflight + 1), true)
  }

  function TrackStep(l: Life): (Life, bool) {
    if l.forced || l.done then (l, false) else (l.(inflight := l.inflight + 1), true)
  }

  /** The channel the next release closes, when it is the last one of a closing bus. */
  function Closes(l: Life): Option<nat> {
    if l.closed && l.inflight == 1 && l.idle.Some? && !l.idleClosed then l.idle else None
  }

  function ReleaseStep(l: Life): Life {
    match Closes(l)
    case None => l.(inflight := l.inflight - 1)
    case Some(ch) => l.(inflight := l.inflight - 1, idleClosed := true, shut := l.shut + {ch})
  }

  /** One round of the Wait loop: None when it observed the idle state and returns nil, the
      channel to block on otherwise. */
  function WaitStep(l: Life): (Life, Option<nat>) {
    if l.inflight == 0 then (l.(done := true), None)
    else if l.idle.None? || l.idleClosed then
      (l.(idle := Some(l.made), idleClosed := false, made := l.made + 1), Some(l.made))
    else (l, l.idle)
  }

  function BeginStep(l: Life): Life {
    l.(closed := true)
  }

  function InterruptStep(l: Life): Life {
    l.(forced := true, closed := true)
  }

  /** The idempotent release function of one unit of work: sync.Once as a flag. */
  class Releaser {
    var fired: bool

    constructor ()
      ensures !fired
    {
      fired := false;
    }
  }

  class Lifecycle {
    var closed: bool
    var forced: bool
    var done: bool
    var inflight: int
    var idle: Option<nat>
    var idleClosed: bool
    var made: nat
    var shut: set<nat>
    /** The bus context was cancelled. */
    var cancelled: bool

    function Value(): Life
      reads this
    {
      Life(closed, forced, done, inflight, idle, idleClosed, made, shut)
    }

    constructor ()
      ensures Value() == ZERO && !cancelled
    {
      closed, forced, done, inflight := false, false, false, 0;
      idle, idleClosed, made, shut := None, false, 0, {};
      cancelled := false;
    }

    method Admit(nested: bool) returns (r: Releaser?)
      modifies this
      ensures (Value(), r != null) == AdmitStep(old(Value()), nested)
      ensures r != null ==> fresh(r) && !r.fired
      ensures cancelled == old(cancelled)
    {
      if forced || done {
        return null;
      }
      if closed && (!nested || inflight <= 0) {
        return null;
      }
      inflight := inflight + 1;
      r := new Releaser();
    }

    method Track() returns (r: Releaser?)
      modifies this
      ensures (Value(), r != null) == TrackStep(old(Value()))
      ensures r != null ==> fresh(r) && !r.fired
      ensures cancelled == old(cancelled)
    {
      if forced || done {
        return null;
      }
      inflight := inflight + 1;
      r := new Releaser();
    }

    /** Idempotent: only the first call of r counts. */
    method Release(r: Releaser)
      modifies this, r
      ensures r.fired && cancelled == old(cancelled)
      ensures Value() == if old(r.fired) then old(Value()) else ReleaseStep(old(Value()))
    {
      if r.fired {
        return;
      }
      r.fired := true;
      inflight := inflight - 1;
      if closed && inflight == 0 && idle.Some? && !idleClosed {
        shut := shut + {idle.value};
        idleClosed := true;
      }
    }

    method BeginShutdown()
      modifies this
      ensures Value() == BeginStep(old(Value())) && cancelled == old(cancelled)
    {
      closed := true;
    }

    /** The locked part of one Wait round. */
    method WaitRound() returns (block: Option<nat>)
      modifies this
      ensures (Value(), block) == WaitStep(old(Value())) && cancelled == old(cancelled)
    {
      if inflight == 0 {
        done := true;
        return None;
      }
      if idle.None? || idleClosed {
        idle := Some(made);
        idleClosed := false;
        made := made + 1;
      }
      block := idle;
    }

    method Interrupt()
      modifies this
      ensures Value() == InterruptStep(old(Value())) && cancelled
    {
      forced := true;
      closed := true;
      cancelled := true;
    }
  }

  // ---------- every interleaving ----------

  datatype Token = Held | Spent
  datatype Waiter = Blocked(ch: nat) | Drained | Expired

  /** The lifecycle with every release function ever handed out and every Wait call. */
  datatype World = World(life: Life, tokens: seq<Token>, waiters: seq<Waiter>)

  const START := World(ZERO, [], [])

  datatype Action =
    | Admit(nested: bool)
    | Track
    | Release(t: nat)
    | BeginShutdown
    | Enter
    | Wake(w: nat)
    | Expire(w: nat)
    | Interrupt

  /** Release may be called any number of times; a waiter wakes on a closed channel and may
      expire at any moment. */
  predicate Enabled(s: World, a: Action) {
    match a
    case Release(t) => t < |s.tokens|
    case Wake(w) => w < |s.waiters| && s.waiters[w].Blocked? && s.waiters[w].ch in s.life.shut
    case Expire(w) => w < |s.waiters| && s.waiters[w].Blocked?
    case _ => true
  }

  function Issue(s: World, r: (Life, bool)): World {
    if r.1 then s.(life := r.0, tokens := s.tokens + [Held]) else s.(life := r.0)
  }

  function Outcome(block: Option<nat>): Waiter {
    match block case None => Drained case Some(ch) => Blocked(ch)
  }

  function Step(s: World, a: Action): World
    requires Enabled(s, a)
  {
    match a
    case Admit(nested) => Issue(s, AdmitStep(s.life, nested))
    case Track => Issue(s, TrackStep(s.life))
    case Release(t) =>
      if s.tokens[t] == Spent then s
      else s.(life := ReleaseStep(s.life), tokens := s.tokens[t := Spent])
    case BeginShutdown => s.(life := BeginStep(s.life))
    case Enter =>
      var (l, block) := WaitStep(s.life);
      s.(life := l, waiters := s.waiters + [Outcome(block)])
    case Wake(w) =>
      var (l, block) := WaitStep(s.life);
      s.(life := l, waiters := s.waiters[w := Outcome(block)])
    case Expire(w) => s.(life := InterruptStep(s.life), waiters := s.waiters[w := Expired])
    case Interrupt => s.(life := InterruptStep(s.life))
  }

  ghost predicate Runs(s: World, actions: seq<Action>)
    decreases |actions|
  {
    actions == [] || (Enabled(s, actions[0]) && Runs(Step(s, actions[0]), actions[1..]))
  }

  ghost function After(s: World, actions: seq<Action>): World
    requires Runs(s, actions)
    decreases |actions|
  {
    if actions == [] then s else After(Step(s, actions[0]), actions[1..])
  }

  function Unreleased(t: Token): nat {
    if t.Held? then 1 else 0
  }

  /** Holds in every interleaving, whatever the callers do. */
  ghost predicate Accounted(s: World) {
    && s.life.inflight == Sum(Unreleased, s.tokens)
    && (s.life.done ==> s.life.inflight == 0)
    && (forall w | 0 <= w < |s.waiters| && s.waiters[w].Drained? :: s.life.done)
    && (forall ch | ch in s.life.shut :: ch < s.life.made)
    && (s.life.idle.Some? ==>
          s.life.idle.value < s.life.made && (s.life.idleClosed <==> s.life.idle.value in s.life.shut))
  }

  lemma AdmissionAccounted(s: World, a: Action)
    requires Accounted(s) && Enabled(s, a) && (a.Admit? || a.Track?)
    ensures Accounted(Step(s, a))
  {
    SumAppend(Unreleased, s.tokens, Held);
  }

  lemma ReleaseAccounted(s: World, a: Action)
    requires Accounted(s) && Enabled(s, a) && a.Release?
    ensures Accounted(Step(s, a))
  {
    SumUpdate(Unreleased, s.tokens, a.t, Spent);
    SumAtLeast(Unreleased, s.tokens, a.t);
  }

  lemma AccountedStep(s: World, a: Action)
    requires Accounted(s) && Enabled(s, a)
    ensures Accounted(Step(s, a))
  {
    if a.Admit? || a.Track? {
      AdmissionAccounted(s, a);
    } else if a.Release? {
      ReleaseAccounted(s, a);
    }
  }

  lemma {:induction false} AccountedRun(s: World, actions: seq<Action>)
    requires Accounted(s) && Runs(s, actions)
    ensures Accounted(After(s, actions))
    decreases |actions|
  {
    if actions != [] {
      AccountedStep(s, actions[0]);
      AccountedRun(Step(s, actions[0]), actions[1..]);
    }
  }

  /** In every interleaving the in-flight count is the number of unreleased units of work. */
  lemma InflightIsUnreleased(actions: seq<Action>)
    requires Runs(START, actions)
    ensures var s := After(START, actions); s.life.inflight == Sum(Unreleased, s.tokens)
  {
    AccountedRun(START, actions);
  }

  /** Work is refused for good in s. */
  predicate Refusing(s: World) {
    s.life.done || s.life.forced
  }

  /** Once any Wait returned nil, or after Interrupt, no later run ever hands out a unit of
      work; after a nil Wait the count stays zero as well. */
  lemma {:induction false} NothingRunsAfterClose(s: World, actions: seq<Action>)
    requires Accounted(s) && Runs(s, actions)
    requires Refusing(s) || exists w :: 0 <= w < |s.waiters| && s.waiters[w].Drained?
    ensures var e := After(s, actions);
            && Refusing(e) && |e.tokens| == |s.tokens|
            && (s.life.done ==> e.life.done && e.life.inflight == 0)
    decreases |actions|
  {
    if actions != [] {
      AccountedStep(s, actions[0]);
      NothingRunsAfterClose(Step(s, actions[0]), actions[1..]);
    }
  }

  /** A release never closes a nil channel or one that is already closed. */
  lemma IdleChannelClosedOnce(actions: seq<Action>, t: nat)
    requires Runs(START, actions) && t < |After(START, actions).tokens|
    ensures var s := After(START, actions);
            var next := Step(s, Release(t)).life;
            next.shut != s.life.shut ==>
              && Closes(s.life).Some?
              && Closes(s.life).value !in s.life.shut
              && next.shut == s.life.shut + {Closes(s.life).value}
  {
    AccountedRun(START, actions);
  }

  /** Once a closing bus is idle, emits alone never wake it up: only work that a broker already
      delivered (Track) can still be counted. */
  lemma {:induction false} IdleClosedBusAdmitsNothing(s: World, actions: seq<Action>)
    requires Accounted(s) && Runs(s, actions)
    requires s.life.closed && s.life.inflight == 0
    requires forall i | 0 <= i < |actions| :: !actions[i].Track?
    ensures After(s, actions).tokens == s.tokens && After(s, actions).life.inflight == 0
    decreases |actions|
  {
    if actions != [] {
      AccountedStep(s, actions[0]);
      if actions[0].Release? {
        SumAtLeast(Unreleased, s.tokens, actions[0].t);
      }
      IdleClosedBusAdmitsNothing(Step(s, actions[0]), actions[1..]);
    }
  }

  /** While a bus is closing, an emit is admitted exactly when it comes from a handler, the deadline
      has not passed, and work is still in flight: handlers can finish, nothing new begins. */
  lemma ClosingAdmitsNestedOnly(actions: seq<Action>, nested: bool)
    requires Runs(START, actions) && After(START, actions).life.closed
    ensures var s := After(START, actions);
            |Step(s, Admit(nested)).tokens| > |s.tokens|
            <==> nested && !s.life.forced && Sum(Unreleased, s.tokens) > 0
  {
    AccountedRun(START, actions);
  }

  // ---------- exactly what is admitted ----------

  /** The deadline of a Wait passed, or the bus was interrupted. */
  predicate Forces(a: Action) {
    a.Interrupt? || a.Expire?
  }

  /** Some Wait returned nil. */
  ghost predicate SomeoneDrained(s: World) {
    exists w :: 0 <= w < |s.waiters| && s.waiters[w].Drained?
  }

  ghost predicate SomethingHeld(s: World) {
    exists t :: 0 <= t < |s.tokens| && s.tokens[t].Held?
  }

  ghost predicate EverForced(actions: seq<Action>) {
    exists i :: 0 <= i < |actions| && Forces(actions[i])
  }

  ghost predicate EverClosed(actions: seq<Action>) {
    exists i :: 0 <= i < |actions| && (Forces(actions[i]) || actions[i].BeginShutdown?)
  }

  /** The flags say what happened. */
  ghost predicate Flags(s: World, closed: bool, forced: bool) {
    s.life.closed == closed && s.life.forced == forced && (s.life.done <==> SomeoneDrained(s))
  }

  lemma FlagsStep(s: World, a: Action, closed: bool, forced: bool)
    requires Accounted(s) && Flags(s, closed, forced) && Enabled(s, a)
    ensures Flags(Step(s, a), closed || Forces(a) || a.BeginShutdown?, forced || Forces(a))
  {
    hide Accounted;
    var t := Step(s, a);
    if SomeoneDrained(s) {
      var w :| 0 <= w < |s.waiters| && s.waiters[w].Drained?;
      assert t.waiters[w].Drained?;
    }
    if a.Enter? && t.life.done && !s.life.done {
      assert t.waiters[|s.waiters|].Drained?;
    }
    if a.Wake? && t.life.done && !s.life.done {
      assert t.waiters[a.w].Drained?;
    }
  }

  lemma {:induction false} FlagsRun(s: World, actions: seq<Action>, closed: bool, forced: bool)
    requires Accounted(s) && Flags(s, closed, forced) && Runs(s, actions)
    ensures Flags(After(s, actions), closed || EverClosed(actions), forced || EverForced(actions))
    decreases |actions|
  {
    hide Accounted, Flags, Step;
    if actions != [] {
      var a, rest := actions[0], actions[1..];
      AccountedStep(s, a);
      FlagsStep(s, a, closed, forced);
      FlagsRun(Step(s, a), rest, closed || Forces(a) || a.BeginShutdown?, forced || Forces(a));
      EverCons(a, rest);
      assert actions == [a] + rest;
    }
  }

  lemma EverCons(a: Action, rest: seq<Action>)
    ensures EverForced([a] + rest) <==> Forces(a) || EverForced(rest)
    ensures EverClosed([a] + rest) <==> Forces(a) || a.BeginShutdown? || EverClosed(rest)
  {
    var all := [a] + rest;
    assert all[0] == a && forall i | 0 <= i < |rest| :: rest[i] == all[i + 1];
  }

  lemma HeldIsInFlight(s: World)
    requires Accounted(s)
    ensures SomethingHeld(s) <==> s.life.inflight > 0
  {
    if SomethingHeld(s) {
      var t :| 0 <= t < |s.tokens| && s.tokens[t].Held?;
      SumAtLeast(Unreleased, s.tokens, t);
    } else if s.life.inflight > 0 {
      var t := SumWitness(Unreleased, s.tokens);
    }
  }

  /** The step hands out one more unit of work. */
  predicate HandsOut(s: World, a: Action)
    requires Enabled(s, a)
  {
    Step(s, a).tokens == s.tokens + [Held]
  }

  /** The admission law, in every interleaving and by what happened in it: an emit is admitted if and
      only if no Wait returned nil and no deadline passed, and nobody began a shutdown, or the emit
      comes from a handler and work is still in flight. A refused one changes nothing. */
  lemma AdmittedExactly(actions: seq<Action>, nested: bool)
    requires Runs(START, actions)
    ensures var s := After(START, actions);
            && (HandsOut(s, Admit(nested)) <==>
                  !SomeoneDrained(s) && !EverForced(actions)
                  && (!EverClosed(actions) || (nested && SomethingHeld(s))))
            && (!HandsOut(s, Admit(nested)) ==> Step(s, Admit(nested)) == s)
  {
    hide SomeoneDrained, EverForced, EverClosed, SomethingHeld;
    AccountedRun(START, actions);
    NobodyYet();
    FlagsRun(START, actions, false, false);
    HeldIsInFlight(After(START, actions));
  }

  /** And work that a broker already delivered is counted if and only if no Wait returned nil and no
      deadline passed. */
  lemma TrackedExactly(actions: seq<Action>)
    requires Runs(START, actions)
    ensures var s := After(START, actions);
            && (HandsOut(s, Track) <==> !SomeoneDrained(s) && !EverForced(actions))
            && (!HandsOut(s, Track) ==> Step(s, Track) == s)
  {
    hide SomeoneDrained, EverForced, EverClosed;
    AccountedRun(START, actions);
    NobodyYet();
    FlagsRun(START, actions, false, false);
  }

  lemma NobodyYet()
    ensures Flags(START, false, false)
  {
  }

  // ---------- who can miss the wakeup ----------

  /** The step a leaves waiter w blocked: its Wait call began, or it woke and found new work. */
  predicate Blocks(s: World, a: Action, w: nat)
    requires Enabled(s, a)
  {
    && ((a == Enter && w == |s.waiters|) || a == Wake(w))
    && w < |Step(s, a).waiters| && Step(s, a).waiters[w].Blocked?
  }

  /** A waiter that waits for nothing: the bus is closed and idle, and its channel is open. */
  predicate Stranded(s: World, w: nat) {
    && s.life.closed && s.life.inflight == 0
    && w < |s.waiters| && s.waiters[w].Blocked? && s.waiters[w].ch !in s.life.shut
  }

  /** The waiter sits on a closed channel, or on the current open one while work is in flight. */
  predicate Wakeable(s: World, w: nat) {
    w < |s.waiters| && s.waiters[w].Blocked? ==>
      && s.life.closed
      && (s.waiters[w].ch in s.life.shut
          || (s.life.idle == Some(s.waiters[w].ch) && !s.life.idleClosed && s.life.inflight > 0))
  }

  lemma WakeableStep(s: World, a: Action, w: nat)
    requires Accounted(s) && Wakeable(s, w) && w < |s.waiters| && Enabled(s, a)
    ensures Wakeable(Step(s, a), w)
  {
    AccountedStep(s, a);
    if a.Release? {
      SumAtLeast(Unreleased, s.tokens, a.t);
    }
  }

  lemma {:induction false} WakeableRun(s: World, actions: seq<Action>, w: nat)
    requires Accounted(s) && Wakeable(s, w) && w < |s.waiters| && Runs(s, actions)
    ensures Accounted(After(s, actions)) && Wakeable(After(s, actions), w)
    decreases |actions|
  {
    if actions != [] {
      AccountedStep(s, actions[0]);
      WakeableStep(s, actions[0], w);
      WakeableRun(Step(s, actions[0]), actions[1..], w);
    }
  }

  /** No lost wakeup: a waiter that blocked on a closed bus, whatever the other waiters did and
      whatever happens later, sits on a closed channel or on the current open one with work in
      flight; and as soon as the bus is idle it can wake, and returns nil. */
  lemma NoLostWakeup(s: World, a: Action, w: nat, later: seq<Action>)
    requires Accounted(s) && Enabled(s, a) && Blocks(s, a, w) && s.life.closed
    requires Runs(Step(s, a), later)
    ensures var u := After(Step(s, a), later);
            && w < |u.waiters| && Wakeable(u, w) && !Stranded(u, w)
            && (u.waiters[w].Blocked? && u.life.inflight == 0 ==>
                  Enabled(u, Wake(w)) && Step(u, Wake(w)).waiters[w].Drained?)
  {
    AccountedStep(s, a);
    WakeableRun(Step(s, a), later, w);
    WaitersStay(Step(s, a), later);
  }

  lemma {:induction false} WaitersStay(s: World, actions: seq<Action>)
    requires Runs(s, actions)
    ensures |s.waiters| <= |After(s, actions).waiters|
    decreases |actions|
  {
    if actions != [] {
      WaitersStay(Step(s, actions[0]), actions[1..]);
    }
  }

  lemma RunsCons(s: World, a: Action, rest: seq<Action>)
    requires Enabled(s, a) && Runs(Step(s, a), rest)
    ensures Runs(s, [a] + rest) && After(s, [a] + rest) == After(Step(s, a), rest)
  {
    assert ([a] + rest)[1..] == rest;
  }

  /** While the bus is open, releasing everything and then closing leaves the waiter behind. */
  lemma {:induction false} ReleaseThenClose(s: World, w: nat) returns (actions: seq<Action>)
    requires Accounted(s) && !s.life.closed
    requires w < |s.waiters| && s.waiters[w].Blocked? && s.waiters[w].ch !in s.life.shut
    ensures Runs(s, actions) && Stranded(After(s, actions), w)
    decreases s.life.inflight
  {
    if Sum(Unreleased, s.tokens) > 0 {
      var t := SumWitness(Unreleased, s.tokens);
      SumAtLeast(Unreleased, s.tokens, t);
      AccountedStep(s, Release(t));
      var rest := ReleaseThenClose(Step(s, Release(t)), w);
      RunsCons(s, Release(t), rest);
      return [Release(t)] + rest;
    }
    assert Runs(Step(s, BeginShutdown), []);
    RunsCons(s, BeginShutdown, []);
    return [BeginShutdown] + [];
  }

  ghost predicate CanStrand(s: World, w: nat) {
    exists later :: Runs(s, later) && Stranded(After(s, later), w)
  }

  /** Exactly which Wait calls may miss the wakeup: a waiter can be stranded by what happens after
      it blocked if and only if the bus was not closed when it blocked. */
  lemma StrandedExactly(s: World, a: Action, w: nat)
    requires Accounted(s) && Enabled(s, a) && Blocks(s, a, w)
    ensures CanStrand(Step(s, a), w) <==> !s.life.closed
  {
    var t := Step(s, a);
    if s.life.closed {
      forall later | Runs(t, later) ensures !Stranded(After(t, later), w) {
        NoLostWakeup(s, a, w, later);
      }
    } else {
      AccountedStep(s, a);
      var later := ReleaseThenClose(t, w);
    }
  }
}
