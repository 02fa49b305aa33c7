/** Dispatch in the in-process bus (local-bus.go) as a transition system: one step per mutex
    section or channel operation of Emit, dispatchAsync, runTask and the parked goroutine.

    An emit owns one pair per subscribed handler. A pair is what must end exactly once: by
    running its handler or by one report. */
module LocalBus {
  import opened Base
  import opened Lifecycle

  datatype Overflow = Block | Unbounded | Drop

  /** The limits after NewLocalBus replaced values at or below zero by its defaults. */
  datatype Config = Config(maxConcurrent: nat, queueSize: nat, overflow: Overflow)

  const DEFAULT_MAX_CONCURRENT := 16
  const DEFAULT_QUEUE_SIZE := 1024

  /** NewLocalBus replaces limits at or below zero by its defaults. */
  function NewConfig(maxConcurrent: int, queueSize: int, overflow: Overflow): (c: Config)
    ensures c.maxConcurrent > 0 && c.queueSize > 0 && c.overflow == overflow
    ensures c.maxConcurrent == maxConcurrent || (maxConcurrent <= 0 && c.maxConcurrent == 16)
    ensures c.queueSize == queueSize || (queueSize <= 0 && c.queueSize == 1024)
  {
    Config(if maxConcurrent <= 0 then DEFAULT_MAX_CONCURRENT else maxConcurrent,
           if queueSize <= 0 then DEFAULT_QUEUE_SIZE else queueSize,
           overflow)
  }

  datatype Phase =
    | Queued                                // the Emit loop has not reached it
    | Tracked                               // counted in flight, about to try a slot
    | Spilled                               // found no slot: the overflow policy decides
    | Room                                  // blocked until there is queue room
    | Parked(budget: bool)                  // own goroutine, waiting for a slot
    | Slotted(budget: bool)                 // got the slot; may still hold queue room
    | Running(slot: bool, call: Option<nat>)  // in the handler; call is the Emit it is inside
    | Returned                              // handler done, slot still held
    | Closing                               // ended, still counted in flight
    | Done

  datatype Pair = Pair(emit: nat, phase: Phase, runs: nat, reports: nat)

  /** One Emit call over the pairs lo..hi; next is the pair it is dispatching. */
  datatype Emit = Emit(nested: bool, lo: nat, hi: nat, next: nat, caller: Option<nat>, live: bool)

  /** cancelled says that the bus context is done; Interrupt sets forced under the mutex and cancels
      the context after it. */
  datatype Bus = Bus(life: Life, cancelled: bool, exec: nat, pending: nat, emits: seq<Emit>, pairs: seq<Pair>)

  const EMPTY := Bus(ZERO, false, 0, 0, [], [])

  datatype Action =
    | EmitOutside(nested: bool, n: nat)        // n handlers; nested: made with some handler ctx
    | EmitInside(p: nat, nested: bool, n: nat) // made by the running handler of pair p
    | TrackNext(e: nat)
    | TakeSlot(e: nat)
    | NoSlot(e: nat)
    | Spill(e: nat)
    | RoomFound(e: nat)
    | EmitterGone(e: nat)
    | RoomInterrupted(e: nat)
    | SlotFound(p: nat)
    | ParkedInterrupted(p: nat)
    | LeaveQueue(p: nat)
    | Start(p: nat)
    | Finish(p: nat)
    | FreeSlot(p: nat)
    | Release(p: nat)
    | EmitReturns(e: nat)
    | BeginShutdown
    | ShutdownRound
    | Interrupt
    | Cancel

  // ---------- enabling conditions ----------

  predicate AtPair(s: Bus, e: nat) {
    e < |s.emits| && s.emits[e].live && s.emits[e].next < s.emits[e].hi && s.emits[e].next < |s.pairs|
  }

  predicate AtPhase(s: Bus, e: nat, phase: Phase) {
    AtPair(s, e) && s.pairs[s.emits[e].next].phase == phase
  }

  /** The steps of the Emit loop on the pair at hand. */
  predicate Loops(a: Action) {
    a.TrackNext? || a.TakeSlot? || a.NoSlot? || a.Spill? || a.RoomFound? || a.EmitterGone? || a.RoomInterrupted?
  }

  /** The steps of a task on its own goroutine, and the end of a handler. */
  predicate Tasks(a: Action) {
    a.SlotFound? || a.ParkedInterrupted? || a.LeaveQueue? || a.Start? || a.Finish? || a.FreeSlot?
  }

  predicate LoopEnabled(c: Config, s: Bus, a: Action)
    requires Loops(a)
  {
    match a
    case TrackNext(e) => AtPhase(s, e, Queued)
    case TakeSlot(e) => AtPhase(s, e, Tracked) && s.exec < c.maxConcurrent
    case NoSlot(e) => AtPhase(s, e, Tracked) && s.exec >= c.maxConcurrent
    case Spill(e) => AtPhase(s, e, Spilled)
    case RoomFound(e) => AtPhase(s, e, Room) && s.pending < c.queueSize
    case EmitterGone(e) => AtPhase(s, e, Room)
    case RoomInterrupted(e) => AtPhase(s, e, Room) && s.cancelled
  }

  predicate TaskEnabled(c: Config, s: Bus, a: Action)
    requires Tasks(a)
  {
    match a
    case SlotFound(p) => p < |s.pairs| && s.pairs[p].phase.Parked? && s.exec < c.maxConcurrent
    case ParkedInterrupted(p) =>
      p < |s.pairs| && s.pairs[p].phase.Parked? && s.cancelled
      && (s.pairs[p].phase.budget ==> s.pending > 0)
    case LeaveQueue(p) => p < |s.pairs| && s.pairs[p].phase == Slotted(true) && s.pending > 0
    case Start(p) =>
      p < |s.pairs| && s.pairs[p].phase == Slotted(false) && (s.cancelled ==> s.exec > 0)
    case Finish(p) => p < |s.pairs| && s.pairs[p].phase.Running? && s.pairs[p].phase.call.None?
    case FreeSlot(p) => p < |s.pairs| && s.pairs[p].phase == Returned && s.exec > 0
  }

  predicate RestEnabled(s: Bus, a: Action) {
    match a
    case EmitOutside(_, n) => n > 0
    case EmitInside(p, _, n) =>
      n > 0 && p < |s.pairs| && s.pairs[p].phase.Running? && s.pairs[p].phase.call.None?
    case Release(p) => p < |s.pairs| && s.pairs[p].phase == Closing && s.pairs[p].emit < |s.emits|
    case EmitReturns(e) => e < |s.emits| && s.emits[e].live && s.emits[e].next == s.emits[e].hi
    case Cancel => s.life.forced
    case _ => true
  }

  predicate Enabled(c: Config, s: Bus, a: Action) {
    if Loops(a) then LoopEnabled(c, s, a)
    else if Tasks(a) then TaskEnabled(c, s, a)
    else RestEnabled(s, a)
  }

  /** The steps the bus and its handlers take on their own: everything but new emits, an
      emitter giving up, and shutdown. */
  predicate Internal(a: Action) {
    !(a.EmitOutside? || a.EmitInside? || a.EmitterGone? || a.BeginShutdown? || a.ShutdownRound?
      || a.Interrupt? || a.Cancel?)
  }

  // ---------- steps ----------

  function Fresh(e: nat, n: nat): seq<Pair> {
    seq(n, i => Pair(e, Queued, 0, 0))
  }

  function SetPhase(s: Bus, p: nat, phase: Phase): Bus
    requires p < |s.pairs|
  {
    s.(pairs := s.pairs[p := s.pairs[p].(phase := phase)])
  }

  function Run(s: Bus, p: nat, slot: bool): Bus
    requires p < |s.pairs|
  {
    s.(pairs := s.pairs[p := s.pairs[p].(phase := Running(slot, None), runs := s.pairs[p].runs + 1)])
  }

  function Report(s: Bus, p: nat, phase: Phase): Bus
    requires p < |s.pairs|
  {
    s.(pairs := s.pairs[p := s.pairs[p].(phase := phase, reports := s.pairs[p].reports + 1)])
  }

  /** The Emit loop goes on to its next handler. */
  function Advance(s: Bus, e: nat): Bus
    requires e < |s.emits|
  {
    s.(emits := s.emits[e := s.emits[e].(next := s.emits[e].next + 1)])
  }

  /** Admission of an emit over n handlers. A refused emit creates no pair; it is reported once
      as rejected. */
  function Admit(s: Bus, nested: bool, n: nat, caller: Option<nat>): Bus {
    var (l, ok) := AdmitStep(s.life, nested);
    if !ok then s else
      var k := |s.pairs|;
      s.(life := l,
         emits := s.emits + [Emit(nested, k, k + n, k, caller, true)],
         pairs := s.pairs + Fresh(|s.emits|, n))
  }

  /** The state in which an Emit has returned and its caller does not know it yet. */
  function Returning(s: Bus, e: nat): Bus
    requires e < |s.emits|
  {
    s.(life := ReleaseStep(s.life), emits := s.emits[e := s.emits[e].(live := false)])
  }

  function LoopStep(c: Config, s: Bus, a: Action): Bus
    requires Loops(a) && LoopEnabled(c, s, a)
  {
    var p := s.emits[a.e].next;
    match a
    case TrackNext(e) =>
      var (l, ok) := TrackStep(s.life);
      if ok then SetPhase(s.(life := l), p, Tracked) else Advance(Report(s, p, Done), e)
    case TakeSlot(e) => Advance(Run(s.(exec := s.exec + 1), p, true), e)
    case NoSlot(e) => if s.emits[e].nested then Run(s, p, false) else SetPhase(s, p, Spilled)
    case Spill(e) =>
      if c.overflow.Unbounded? then Advance(SetPhase(s, p, Parked(false)), e)
      else if s.pending < c.queueSize then
        Advance(SetPhase(s.(pending := s.pending + 1), p, Parked(true)), e)
      else if c.overflow.Drop? then Report(s, p, Closing)
      else SetPhase(s, p, Room)
    case RoomFound(e) => Advance(SetPhase(s.(pending := s.pending + 1), p, Parked(true)), e)
    case EmitterGone(e) => Report(s, p, Closing)
    case RoomInterrupted(e) => Report(s, p, Closing)
  }

  function TaskStep(c: Config, s: Bus, a: Action): Bus
    requires Tasks(a) && TaskEnabled(c, s, a)
  {
    match a
    case SlotFound(p) => SetPhase(s.(exec := s.exec + 1), p, Slotted(s.pairs[p].phase.budget))
    case ParkedInterrupted(p) =>
      var t := if s.pairs[p].phase.budget then s.(pending := s.pending - 1) else s;
      Report(t, p, Closing)
    case LeaveQueue(p) => SetPhase(s.(pending := s.pending - 1), p, Slotted(false))
    case Start(p) =>
      if s.cancelled then Report(s.(exec := s.exec - 1), p, Closing) else Run(s, p, true)
    case Finish(p) => SetPhase(s, p, if s.pairs[p].phase.slot then Returned else Closing)
    case FreeSlot(p) => SetPhase(s.(exec := s.exec - 1), p, Closing)
  }

  /** The handler of pair p emits. */
  function AdmitInside(s: Bus, p: nat, nested: bool, n: nat): Bus
    requires p < |s.pairs| && s.pairs[p].phase.Running?
  {
    var t := Admit(s, nested, n, Some(p));
    if t == s then s else SetPhase(t, p, Running(s.pairs[p].phase.slot, Some(|s.emits|)))
  }

  /** Pair p is no longer in flight. One that ended on the emitter's own goroutine lets the Emit
      loop go on. */
  function EndPair(s: Bus, p: nat): Bus
    requires p < |s.pairs| && s.pairs[p].emit < |s.emits|
  {
    var e := s.pairs[p].emit;
    var t := SetPhase(s.(life := ReleaseStep(s.life)), p, Done);
    if s.emits[e].next == p then Advance(t, e) else t
  }

  /** Emit e returns, to the handler that made it if there is one. */
  function EndEmit(s: Bus, e: nat): Bus
    requires e < |s.emits|
  {
    var t := Returning(s, e);
    var q := s.emits[e].caller;
    if q.Some? && q.value < |s.pairs| && s.pairs[q.value].phase.Running? then
      SetPhase(t, q.value, Running(s.pairs[q.value].phase.slot, None))
    else t
  }

  function Step(c: Config, s: Bus, a: Action): Bus
    requires Enabled(c, s, a)
  {
    if Loops(a) then LoopStep(c, s, a)
    else if Tasks(a) then TaskStep(c, s, a)
    else match a
      case EmitOutside(nested, n) => Admit(s, nested, n, None)
      case EmitInside(p, nested, n) => AdmitInside(s, p, nested, n)
      case Release(p) => EndPair(s, p)
      case EmitReturns(e) => EndEmit(s, e)
      case BeginShutdown => s.(life := BeginStep(s.life))
      case ShutdownRound => s.(life := WaitStep(s.life).0)
      case Interrupt => s.(life := InterruptStep(s.life))
      case Cancel => s.(cancelled := true)
  }

  ghost predicate Runs(c: Config, s: Bus, actions: seq<Action>)
    decreases |actions|
  {
    actions == [] || (Enabled(c, s, actions[0]) && Runs(c, Step(c, s, actions[0]), actions[1..]))
  }

  ghost function After(c: Config, s: Bus, actions: seq<Action>): Bus
    requires Runs(c, s, actions)
    decreases |actions|
  {
    if actions == [] then s else After(c, Step(c, s, actions[0]), actions[1..])
  }

  // ---------- the invariant ----------

  function HoldsSlot(p: Pair): nat {
    match p.phase
    case Slotted(_) => 1
    case Running(slot, _) => if slot then 1 else 0
    case Returned => 1
    case _ => 0
  }

  function HoldsRoom(p: Pair): nat {
    match p.phase
    case Parked(budget) => if budget then 1 else 0
    case Slotted(budget) => if budget then 1 else 0
    case _ => 0
  }

  function HoldsCount(p: Pair): nat {
    if p.phase.Queued? || p.phase.Done? then 0 else 1
  }

  function LiveEmit(e: Emit): nat {
    if e.live then 1 else 0
  }

  predicate Ended(p: Phase) {
    p.Running? || p.Returned? || p.Closing? || p.Done?
  }

  /** Phases of a pair the Emit loop has left behind: it has its own goroutine, or is done. */
  predicate HandedOff(p: Phase) {
    p.Parked? || p.Slotted? || (p.Running? && p.slot) || p.Returned? || p.Closing? || p.Done?
  }

  /** Phases of the pair the Emit loop is working on. */
  predicate AtHand(p: Phase) {
    p.Queued? || p.Tracked? || p.Spilled? || p.Room? || (p.Running? && !p.slot) || p.Closing?
  }

  ghost predicate PairOk(s: Bus, p: nat)
    requires p < |s.pairs|
  {
    var x := s.pairs[p];
    && x.emit < |s.emits|
    && s.emits[x.emit].lo <= p < s.emits[x.emit].hi
    && x.runs + x.reports == (if Ended(x.phase) then 1 else 0)
    && (p < s.emits[x.emit].next ==> HandedOff(x.phase))
    && (p == s.emits[x.emit].next ==> AtHand(x.phase))
    && (p > s.emits[x.emit].next ==> x.phase == Queued)
    && (s.emits[x.emit].nested ==> !(x.phase.Spilled? || x.phase.Room? || x.phase.Parked? || x.phase.Slotted?))
    && (x.phase.Running? && !x.phase.slot ==> s.emits[x.emit].nested)
    && (x.phase.Running? && x.phase.call.Some? ==>
          var e := x.phase.call.value;
          x.emit < e < |s.emits| && s.emits[e].live && s.emits[e].caller == Some(p))
  }

  ghost predicate EmitOk(s: Bus, e: nat)
    requires e < |s.emits|
  {
    var x := s.emits[e];
    && x.lo <= x.next <= x.hi <= |s.pairs|
    && (!x.live ==> x.next == x.hi)
    && (forall p | x.lo <= p < x.hi :: s.pairs[p].emit == e)
    && (x.live && x.caller.Some? ==>
          x.caller.value < |s.pairs|
          && s.pairs[x.caller.value].phase.Running?
          && s.pairs[x.caller.value].phase.call == Some(e))
  }

  ghost predicate Counted(s: Bus) {
    && s.exec == Sum(HoldsSlot, s.pairs)
    && s.pending == Sum(HoldsRoom, s.pairs)
    && s.life.inflight == Sum(HoldsCount, s.pairs) + Sum(LiveEmit, s.emits)
    && (s.life.done ==> s.life.inflight == 0)
  }

  ghost predicate Shaped(s: Bus) {
    && (forall p | 0 <= p < |s.pairs| :: PairOk(s, p))
    && (forall e | 0 <= e < |s.emits| :: EmitOk(s, e))
  }

  ghost predicate Inv(c: Config, s: Bus) {
    && Counted(s) && Shaped(s)
    && s.exec <= c.maxConcurrent && s.pending <= c.queueSize
  }

  // ---------- every step keeps it ----------

  lemma SetSums(pairs: seq<Pair>, p: nat, x: Pair)
    requires p < |pairs|
    ensures Sum(HoldsSlot, pairs[p := x]) + HoldsSlot(pairs[p]) == Sum(HoldsSlot, pairs) + HoldsSlot(x)
    ensures Sum(HoldsRoom, pairs[p := x]) + HoldsRoom(pairs[p]) == Sum(HoldsRoom, pairs) + HoldsRoom(x)
    ensures Sum(HoldsCount, pairs[p := x]) + HoldsCount(pairs[p]) == Sum(HoldsCount, pairs) + HoldsCount(x)
    ensures HoldsSlot(pairs[p]) <= Sum(HoldsSlot, pairs)
    ensures HoldsRoom(pairs[p]) <= Sum(HoldsRoom, pairs)
    ensures HoldsCount(pairs[p]) <= Sum(HoldsCount, pairs)
  {
    SumUpdate(HoldsSlot, pairs, p, x);
    SumUpdate(HoldsRoom, pairs, p, x);
    SumUpdate(HoldsCount, pairs, p, x);
    SumAtLeast(HoldsSlot, pairs, p);
    SumAtLeast(HoldsRoom, pairs, p);
    SumAtLeast(HoldsCount, pairs, p);
  }

  lemma {:induction false} FreshHoldsNothing(e: nat, n: nat)
    ensures Sum(HoldsSlot, Fresh(e, n)) == Sum(HoldsRoom, Fresh(e, n)) == Sum(HoldsCount, Fresh(e, n)) == 0
  {
    if n > 0 {
      assert Fresh(e, n)[..n - 1] == Fresh(e, n - 1);
      FreshHoldsNothing(e, n - 1);
    }
  }

  lemma LiveSums(emits: seq<Emit>, e: nat, x: Emit)
    requires e < |emits|
    ensures Sum(LiveEmit, emits[e := x]) + LiveEmit(emits[e]) == Sum(LiveEmit, emits) + LiveEmit(x)
    ensures LiveEmit(emits[e]) <= Sum(LiveEmit, emits)
  {
    SumUpdate(LiveEmit, emits, e, x);
    SumAtLeast(LiveEmit, emits, e);
  }

  /** The counters moved with the one pair that changed. */
  ghost predicate Moved(s: Bus, u: Bus, p: nat, x: Pair)
    requires p < |s.pairs|
  {
    && u.pairs == s.pairs[p := x]
    && u.exec == s.exec + HoldsSlot(x) - HoldsSlot(s.pairs[p])
    && u.pending == s.pending + HoldsRoom(x) - HoldsRoom(s.pairs[p])
    && u.life.inflight == s.life.inflight + HoldsCount(x) - HoldsCount(s.pairs[p])
    && (u.life.done ==> s.life.done && u.life.inflight <= s.life.inflight)
  }

  lemma CountedMoved(s: Bus, u: Bus, p: nat, x: Pair)
    requires Counted(s) && p < |s.pairs| && Moved(s, u, p, x)
    requires Sum(LiveEmit, u.emits) == Sum(LiveEmit, s.emits)
    ensures Counted(u)
  {
    SetSums(s.pairs, p, x);
  }

  /** One pair changes phase; the Emit loops stay where they are. */
  ghost predicate Sets(c: Config, s: Bus, u: Bus, p: nat) {
    && p < |s.pairs| && p < |u.pairs| && u.emits == s.emits
    && Moved(s, u, p, u.pairs[p]) && PairOk(u, p)
    && u.pairs[p].emit == s.pairs[p].emit
    && (s.pairs[p].phase.Running? ==> s.pairs[p].phase.call.None?)
    && u.exec <= c.maxConcurrent && u.pending <= c.queueSize
  }

  lemma PairStays(s: Bus, u: Bus, p: nat)
    requires p < |s.pairs| && p < |u.pairs| && PairOk(s, p)
    requires u.pairs[p] == s.pairs[p] && u.emits == s.emits
    ensures PairOk(u, p)
  {
  }

  lemma EmitStays(s: Bus, u: Bus, e: nat, p: nat)
    requires e < |s.emits| && e < |u.emits| && u.emits[e] == s.emits[e] && EmitOk(s, e)
    requires p < |s.pairs| && p < |u.pairs| && u.pairs == s.pairs[p := u.pairs[p]] && u.pairs[p].emit == s.pairs[p].emit
    requires s.pairs[p].phase.Running? ==> s.pairs[p].phase.call.None?
    ensures EmitOk(u, e)
  {
  }

  lemma InvSetPair(c: Config, s: Bus, u: Bus, p: nat)
    requires Inv(c, s) && Sets(c, s, u, p)
    ensures Inv(c, u)
  {
    hide PairOk, EmitOk, Counted;
    CountedMoved(s, u, p, u.pairs[p]);
    forall q | 0 <= q < |u.pairs| ensures PairOk(u, q) {
      if q != p {
        PairStays(s, u, q);
      }
    }
    forall e | 0 <= e < |u.emits| ensures EmitOk(u, e) {
      EmitStays(s, u, e, p);
    }
  }

  /** The pair at hand is handed off and its Emit loop goes on. */
  ghost predicate Advances(c: Config, s: Bus, u: Bus, e: nat) {
    && AtPair(s, e)
    && var p, was := s.emits[e].next, s.pairs[s.emits[e].next].phase;
       && p < |u.pairs| && Moved(s, u, p, u.pairs[p])
       && u.emits == s.emits[e := s.emits[e].(next := p + 1)]
       && Handed(u.pairs[p], e, s.emits[e].nested)
       && (was.Running? ==> was.call.None?)
       && u.exec <= c.maxConcurrent && u.pending <= c.queueSize
  }

  predicate Handed(x: Pair, e: nat, nested: bool) {
    && x.emit == e && HandedOff(x.phase)
    && x.runs + x.reports == (if Ended(x.phase) then 1 else 0)
    && (nested ==> !x.phase.Parked? && !x.phase.Slotted?)
    && (x.phase.Running? ==> x.phase.call.None?)
  }

  lemma AdvancedPair(c: Config, s: Bus, u: Bus, e: nat, q: nat)
    requires Shaped(s) && Advances(c, s, u, e) && q < |u.pairs|
    ensures PairOk(u, q)
  {
    hide Moved;
    assert u.pairs == s.pairs[s.emits[e].next := u.pairs[s.emits[e].next]] by { MovedPair(s, u, s.emits[e].next); }
    assert PairOk(s, q) && EmitOk(s, e);
  }

  lemma MovedPair(s: Bus, u: Bus, p: nat)
    requires p < |s.pairs| && p < |u.pairs| && Moved(s, u, p, u.pairs[p])
    ensures u.pairs == s.pairs[p := u.pairs[p]]
  {
  }

  lemma AdvancedEmit(c: Config, s: Bus, u: Bus, e: nat, d: nat)
    requires Shaped(s) && Advances(c, s, u, e) && d < |u.emits|
    ensures EmitOk(u, d)
  {
    hide Moved, PairOk, Ended, HandedOff;
    MovedPair(s, u, s.emits[e].next);
    assert EmitOk(s, d) && EmitOk(s, e);
    if d != e {
      EmitStays(s, u, d, s.emits[e].next);
    }
  }

  lemma InvAdvance(c: Config, s: Bus, u: Bus, e: nat)
    requires Inv(c, s) && Advances(c, s, u, e)
    ensures Inv(c, u)
  {
    hide PairOk, EmitOk, Counted;
    LiveSums(s.emits, e, u.emits[e]);
    CountedMoved(s, u, s.emits[e].next, u.pairs[s.emits[e].next]);
    forall q | 0 <= q < |u.pairs| ensures PairOk(u, q) {
      AdvancedPair(c, s, u, e, q);
    }
    forall d | 0 <= d < |u.emits| ensures EmitOk(u, d) {
      AdvancedEmit(c, s, u, e, d);
    }
  }

  /** Appending an admitted emit with its queued pairs. */
  lemma AdmitOk(c: Config, s: Bus, nested: bool, n: nat)
    requires Inv(c, s)
    ensures Inv(c, Admit(s, nested, n, None))
  {
    var t := Admit(s, nested, n, None);
    if t != s {
      AdmitSums(s, nested, n, None);
      AdmitShaped(s, nested, n, None);
    }
  }

  lemma AdmitSums(s: Bus, nested: bool, n: nat, caller: Option<nat>)
    requires Counted(s)
    ensures Counted(Admit(s, nested, n, caller))
  {
    var k := |s.pairs|;
    FreshHoldsNothing(|s.emits|, n);
    SumConcat(HoldsSlot, s.pairs, Fresh(|s.emits|, n));
    SumConcat(HoldsRoom, s.pairs, Fresh(|s.emits|, n));
    SumConcat(HoldsCount, s.pairs, Fresh(|s.emits|, n));
    SumAppend(LiveEmit, s.emits, Emit(nested, k, k + n, k, caller, true));
  }

  /** Everything is in shape except that a caller does not point back at the new emit yet. */
  lemma AdmitShaped(s: Bus, nested: bool, n: nat, caller: Option<nat>)
    requires Shaped(s) && AdmitStep(s.life, nested).1
    ensures var t := Admit(s, nested, n, caller);
            && (forall p | 0 <= p < |t.pairs| :: PairOk(t, p))
            && (forall e | 0 <= e < |s.emits| :: EmitOk(t, e))
            && (caller.None? ==> EmitOk(t, |s.emits|))
  {
    var t := Admit(s, nested, n, caller);
    forall p | 0 <= p < |t.pairs| ensures PairOk(t, p) {
      if p < |s.pairs| {
        assert PairOk(s, p);
      }
    }
    forall e | 0 <= e < |s.emits| ensures EmitOk(t, e) {
      assert EmitOk(s, e);
    }
  }

  lemma EmitInsideCounted(s: Bus, p: nat, nested: bool, n: nat)
    requires Counted(s) && p < |s.pairs| && s.pairs[p].phase.Running?
    ensures Counted(AdmitInside(s, p, nested, n))
  {
    var t, u := Admit(s, nested, n, Some(p)), AdmitInside(s, p, nested, n);
    AdmitSums(s, nested, n, Some(p));
    if t != s {
      InsideMoved(s, t, u, p, nested, n);
      CountedMoved(t, u, p, u.pairs[p]);
    }
  }

  lemma InsideMoved(s: Bus, t: Bus, u: Bus, p: nat, nested: bool, n: nat)
    requires p < |s.pairs| && s.pairs[p].phase.Running?
    requires t == Admit(s, nested, n, Some(p)) && u == AdmitInside(s, p, nested, n) && t != s
    ensures p < |t.pairs| && p < |u.pairs| && Moved(t, u, p, u.pairs[p]) && u.emits == t.emits
  {
  }

  /** The pair whose handler emitted points at the new emit, and everything else stays. */
  ghost predicate CallsNew(s: Bus, t: Bus, u: Bus, p: nat) {
    && |s.emits| < |t.emits| && u.emits == t.emits && p < |s.pairs| <= |t.pairs| && p < |u.pairs|
    && t.pairs[p] == s.pairs[p] && s.pairs[p].phase.Running? && s.pairs[p].phase.call.None?
    && u.pairs == t.pairs[p := s.pairs[p].(phase := Running(s.pairs[p].phase.slot, Some(|s.emits|)))]
    && u.emits[|s.emits|].live && u.emits[|s.emits|].caller == Some(p)
  }

  lemma EmitInsideCalls(s: Bus, p: nat, nested: bool, n: nat)
    requires p < |s.pairs| && s.pairs[p].phase.Running? && s.pairs[p].phase.call.None?
    requires Admit(s, nested, n, Some(p)) != s
    ensures CallsNew(s, Admit(s, nested, n, Some(p)), AdmitInside(s, p, nested, n), p)
  {
  }

  lemma CallsNewPair(s: Bus, t: Bus, u: Bus, p: nat, q: nat)
    requires CallsNew(s, t, u, p) && q < |u.pairs| && PairOk(t, q) && (q == p ==> PairOk(s, q))
    ensures PairOk(u, q)
  {
  }

  lemma CallsNewEmit(s: Bus, t: Bus, u: Bus, p: nat, e: nat)
    requires CallsNew(s, t, u, p) && e < |s.emits| && EmitOk(t, e)
    ensures EmitOk(u, e)
  {
    hide PairOk;
    EmitStays(t, u, e, p);
  }

  lemma NewEmitOk(s: Bus, p: nat, nested: bool, n: nat)
    requires p < |s.pairs| && s.pairs[p].phase.Running? && s.pairs[p].phase.call.None?
    requires Admit(s, nested, n, Some(p)) != s
    requires forall q | 0 <= q < |s.pairs| :: s.pairs[q].emit < |s.emits|
    ensures |AdmitInside(s, p, nested, n).emits| == |s.emits| + 1 && EmitOk(AdmitInside(s, p, nested, n), |s.emits|)
  {
  }

  lemma EmitInsideShaped(s: Bus, p: nat, nested: bool, n: nat)
    requires Shaped(s) && p < |s.pairs| && s.pairs[p].phase.Running? && s.pairs[p].phase.call.None?
    ensures Shaped(AdmitInside(s, p, nested, n))
  {
    hide PairOk, EmitOk, CallsNew;
    var t, u := Admit(s, nested, n, Some(p)), AdmitInside(s, p, nested, n);
    if t != s {
      AdmitShaped(s, nested, n, Some(p));
      EmitInsideCalls(s, p, nested, n);
      forall q | 0 <= q < |u.pairs| ensures PairOk(u, q) {
        CallsNewPair(s, t, u, p, q);
      }
      InRange(s);
      NewEmitOk(s, p, nested, n);
      forall e | 0 <= e < |u.emits| ensures EmitOk(u, e) {
        if e < |s.emits| {
          CallsNewEmit(s, t, u, p, e);
        }
      }
    }
  }

  lemma InRange(s: Bus)
    requires Shaped(s)
    ensures forall q | 0 <= q < |s.pairs| :: s.pairs[q].emit < |s.emits|
  {
    hide EmitOk;
    forall q | 0 <= q < |s.pairs| ensures s.pairs[q].emit < |s.emits| {
      assert PairOk(s, q);
    }
  }

  lemma EmitInsideOk(c: Config, s: Bus, p: nat, nested: bool, n: nat)
    requires Inv(c, s) && p < |s.pairs| && s.pairs[p].phase.Running? && s.pairs[p].phase.call.None?
    ensures Inv(c, AdmitInside(s, p, nested, n))
  {
    hide Counted, Shaped;
    EmitInsideCounted(s, p, nested, n);
    EmitInsideShaped(s, p, nested, n);
  }

  lemma ReturningCounted(s: Bus, e: nat)
    requires Counted(s) && e < |s.emits| && s.emits[e].live
    ensures Counted(Returning(s, e))
  {
    LiveSums(s.emits, e, s.emits[e].(live := false));
  }

  lemma EmitReturnsCounted(s: Bus, e: nat)
    requires Counted(s) && e < |s.emits| && s.emits[e].live
    ensures Counted(EndEmit(s, e))
  {
    hide Counted, ReleaseStep;
    var t, u := Returning(s, e), EndEmit(s, e);
    ReturningCounted(s, e);
    if u != t {
      var q := s.emits[e].caller.value;
      CountedMoved(t, u, q, u.pairs[q]);
    }
  }

  /** The handler whose nested emit returns goes on. */
  lemma CallerGoesOn(s: Bus, e: nat, p: nat)
    requires Shaped(s) && RestEnabled(s, EmitReturns(e)) && p < |s.pairs| && s.emits[e].caller == Some(p)
    ensures var u := EndEmit(s, e); p < |u.pairs| && PairOk(u, p)
  {
    hide ReleaseStep;
    assert EmitOk(s, e) && PairOk(s, p);
  }

  lemma OtherPairStays(s: Bus, e: nat, p: nat)
    requires Shaped(s) && RestEnabled(s, EmitReturns(e)) && p < |s.pairs| && s.emits[e].caller != Some(p)
    ensures var u := EndEmit(s, e); p < |u.pairs| && PairOk(u, p)
  {
    hide ReleaseStep;
    assert EmitOk(s, e) && PairOk(s, p);
    assert EndEmit(s, e).pairs[p] == s.pairs[p];
  }

  lemma EmitReturnsPair(s: Bus, e: nat, p: nat)
    requires Shaped(s) && RestEnabled(s, EmitReturns(e)) && p < |s.pairs|
    ensures var u := EndEmit(s, e); p < |u.pairs| && PairOk(u, p)
  {
    hide EndEmit, PairOk, Shaped;
    if s.emits[e].caller == Some(p) {
      CallerGoesOn(s, e, p);
    } else {
      OtherPairStays(s, e, p);
    }
  }

  lemma EmitReturnsEmit(s: Bus, e: nat, d: nat)
    requires Shaped(s) && RestEnabled(s, EmitReturns(e)) && d < |s.emits|
    ensures var u := EndEmit(s, e); d < |u.emits| && EmitOk(u, d)
  {
    hide ReleaseStep, PairOk;
    assert EmitOk(s, e) && EmitOk(s, d);
  }

  lemma EmitReturnsOk(c: Config, s: Bus, e: nat)
    requires Inv(c, s) && RestEnabled(s, EmitReturns(e))
    ensures Inv(c, EndEmit(s, e))
  {
    hide Counted, PairOk, EmitOk, ReleaseStep;
    EmitReturnsCounted(s, e);
    var u := EndEmit(s, e);
    forall p | 0 <= p < |u.pairs| ensures PairOk(u, p) {
      EmitReturnsPair(s, e, p);
    }
    forall d | 0 <= d < |u.emits| ensures EmitOk(u, d) {
      EmitReturnsEmit(s, e, d);
    }
  }

  /** What a step of the Emit loop on a well-formed pair does. */
  ghost predicate LoopMove(c: Config, s: Bus, u: Bus, e: nat) {
    && e < |s.emits|
    && (if u.emits == s.emits then Sets(c, s, u, s.emits[e].next) else Advances(c, s, u, e))
  }

  lemma TrackMoves(c: Config, s: Bus, e: nat)
    requires LoopEnabled(c, s, TrackNext(e)) && PairOk(s, s.emits[e].next) && s.pairs[s.emits[e].next].emit == e
    requires s.exec <= c.maxConcurrent && s.pending <= c.queueSize
    ensures LoopMove(c, s, LoopStep(c, s, TrackNext(e)), e)
  {
  }

  lemma TakeMoves(c: Config, s: Bus, a: Action)
    requires (a.TakeSlot? || a.NoSlot?) && LoopEnabled(c, s, a)
    requires PairOk(s, s.emits[a.e].next) && s.pairs[s.emits[a.e].next].emit == a.e
    requires s.exec <= c.maxConcurrent && s.pending <= c.queueSize
    ensures LoopMove(c, s, LoopStep(c, s, a), a.e)
  {
  }

  lemma SpillMoves(c: Config, s: Bus, e: nat)
    requires LoopEnabled(c, s, Spill(e)) && PairOk(s, s.emits[e].next) && s.pairs[s.emits[e].next].emit == e
    requires s.exec <= c.maxConcurrent && s.pending <= c.queueSize
    ensures LoopMove(c, s, LoopStep(c, s, Spill(e)), e)
  {
  }

  lemma RoomMoves(c: Config, s: Bus, a: Action)
    requires (a.RoomFound? || a.EmitterGone? || a.RoomInterrupted?) && LoopEnabled(c, s, a)
    requires PairOk(s, s.emits[a.e].next) && s.pairs[s.emits[a.e].next].emit == a.e
    requires s.exec <= c.maxConcurrent && s.pending <= c.queueSize
    ensures LoopMove(c, s, LoopStep(c, s, a), a.e)
  {
  }

  lemma AtHandBelongs(s: Bus, e: nat)
    requires AtPair(s, e) && EmitOk(s, e)
    ensures s.pairs[s.emits[e].next].emit == e
  {
  }

  lemma LoopOk(c: Config, s: Bus, a: Action)
    requires Inv(c, s) && Loops(a) && LoopEnabled(c, s, a)
    ensures Inv(c, LoopStep(c, s, a))
  {
    hide LoopStep, Counted, PairOk, EmitOk, Sets, Advances;
    var u := LoopStep(c, s, a);
    AtHandBelongs(s, a.e);
    if a.Spill? {
      SpillMoves(c, s, a.e);
    } else if a.TrackNext? {
      TrackMoves(c, s, a.e);
    } else if a.TakeSlot? || a.NoSlot? {
      TakeMoves(c, s, a);
    } else {
      RoomMoves(c, s, a);
    }
    if u.emits == s.emits {
      InvSetPair(c, s, u, s.emits[a.e].next);
    } else {
      InvAdvance(c, s, u, a.e);
    }
  }

  /** Shape looks at pairs and emits only. */
  lemma SameShape(c: Config, s: Bus, t: Bus)
    requires Inv(c, s) && s.pairs == t.pairs && s.emits == t.emits && s.exec == t.exec && s.pending == t.pending
    requires t.life.inflight == s.life.inflight && (t.life.done ==> t.life.inflight == 0)
    ensures Inv(c, t)
  {
    hide PairOk, EmitOk;
    forall p | 0 <= p < |t.pairs| ensures PairOk(t, p) {
      PairStays(s, t, p);
    }
    forall e | 0 <= e < |t.emits| ensures EmitOk(t, e) {
      EmitSame(s, t, e);
    }
  }

  lemma EmitSame(s: Bus, u: Bus, e: nat)
    requires e < |s.emits| && EmitOk(s, e) && u.emits == s.emits && u.pairs == s.pairs
    ensures EmitOk(u, e)
  {
  }

  lemma ParkedSets(c: Config, s: Bus, a: Action)
    requires (a.SlotFound? || a.ParkedInterrupted? || a.LeaveQueue?) && TaskEnabled(c, s, a) && PairOk(s, a.p)
    requires s.exec <= c.maxConcurrent && s.pending <= c.queueSize
    ensures Sets(c, s, TaskStep(c, s, a), a.p)
  {
  }

  lemma SlotSets(c: Config, s: Bus, a: Action)
    requires (a.Start? || a.Finish? || a.FreeSlot?) && TaskEnabled(c, s, a) && PairOk(s, a.p)
    requires s.exec <= c.maxConcurrent && s.pending <= c.queueSize
    ensures Sets(c, s, TaskStep(c, s, a), a.p)
  {
  }

  lemma TaskOk(c: Config, s: Bus, a: Action)
    requires Inv(c, s) && Tasks(a) && TaskEnabled(c, s, a)
    ensures Inv(c, TaskStep(c, s, a))
  {
    hide TaskStep, Counted, PairOk, EmitOk, Sets;
    if a.SlotFound? || a.ParkedInterrupted? || a.LeaveQueue? {
      ParkedSets(c, s, a);
    } else {
      SlotSets(c, s, a);
    }
    InvSetPair(c, s, TaskStep(c, s, a), a.p);
  }

  lemma EndPairMoves(c: Config, s: Bus, p: nat)
    requires Counted(s) && RestEnabled(s, Action.Release(p)) && EmitOk(s, s.pairs[p].emit) && PairOk(s, p)
    requires s.exec <= c.maxConcurrent && s.pending <= c.queueSize
    ensures var e, u := s.pairs[p].emit, EndPair(s, p);
            if s.emits[e].next == p then Advances(c, s, u, e) else Sets(c, s, u, p)
  {
    SumAtLeast(HoldsCount, s.pairs, p);
  }

  lemma ReleaseOk(c: Config, s: Bus, p: nat)
    requires Inv(c, s) && RestEnabled(s, Action.Release(p))
    ensures Inv(c, EndPair(s, p))
  {
    hide EndPair, Counted, PairOk, EmitOk, Sets, Advances;
    var e := s.pairs[p].emit;
    EndPairMoves(c, s, p);
    if s.emits[e].next == p {
      InvAdvance(c, s, EndPair(s, p), e);
    } else {
      InvSetPair(c, s, EndPair(s, p), p);
    }
  }

  lemma ShutdownOk(c: Config, s: Bus, a: Action)
    requires Inv(c, s) && RestEnabled(s, a) && (a.BeginShutdown? || a.ShutdownRound? || a.Interrupt? || a.Cancel?)
    ensures Inv(c, Step(c, s, a))
  {
    hide Shaped;
    SameShape(c, s, Step(c, s, a));
  }

  lemma InvStep(c: Config, s: Bus, a: Action)
    requires Inv(c, s) && Enabled(c, s, a)
    ensures Inv(c, Step(c, s, a))
  {
    hide LoopEnabled, TaskEnabled, LoopStep, TaskStep, Admit, AdmitInside, EndPair, EndEmit, Inv;
    if Loops(a) {
      LoopOk(c, s, a);
    } else if Tasks(a) {
      TaskOk(c, s, a);
    } else {
      match a
      case EmitOutside(nested, n) => AdmitOk(c, s, nested, n);
      case EmitInside(p, nested, n) => EmitInsideOk(c, s, p, nested, n);
      case Release(p) => ReleaseOk(c, s, p);
      case EmitReturns(e) => EmitReturnsOk(c, s, e);
      case _ => ShutdownOk(c, s, a);
    }
  }

  lemma {:induction false} InvRun(c: Config, s: Bus, actions: seq<Action>)
    requires Inv(c, s) && Runs(c, s, actions)
    ensures Inv(c, After(c, s, actions))
    decreases |actions|
  {
    hide Step, Enabled, Inv;
    if actions != [] {
      InvStep(c, s, actions[0]);
      InvRun(c, Step(c, s, actions[0]), actions[1..]);
    }
  }

  // ---------- what every run keeps ----------

  lemma InvReached(c: Config, actions: seq<Action>)
    requires Runs(c, EMPTY, actions)
    ensures Inv(c, After(c, EMPTY, actions))
  {
    InvRun(c, EMPTY, actions);
  }

  /** In every interleaving the execution slots in use are exactly the tasks holding one, at most
      MaxConcurrent; the queue room in use is exactly the budgeted parked tasks, at most
      QueueSize; and the in-flight count is every admitted emit plus every unfinished task. */
  lemma TokensMatchHolders(c: Config, actions: seq<Action>)
    requires Runs(c, EMPTY, actions)
    ensures var s := After(c, EMPTY, actions);
            && s.exec == Sum(HoldsSlot, s.pairs) <= c.maxConcurrent
            && s.pending == Sum(HoldsRoom, s.pairs) <= c.queueSize
            && s.life.inflight == Sum(HoldsCount, s.pairs) + Sum(LiveEmit, s.emits)
  {
    InvReached(c, actions);
  }

  /** In every interleaving an admitted (emit, handler) pair has ended at most once, and it has
      ended exactly when its phase says so: by one run of the handler or by one report. */
  lemma PairEndsAtMostOnce(c: Config, actions: seq<Action>, p: nat)
    requires Runs(c, EMPTY, actions) && p < |After(c, EMPTY, actions).pairs|
    ensures var x := After(c, EMPTY, actions).pairs[p];
            x.runs + x.reports == if Ended(x.phase) then 1 else 0
  {
    InvReached(c, actions);
    assert PairOk(After(c, EMPTY, actions), p);
  }

  /** What no step takes back from pair p. */
  predicate EndsKept(s: Bus, u: Bus, p: nat)
    requires p < |s.pairs|
  {
    && |s.pairs| <= |u.pairs|
    && s.pairs[p].emit == u.pairs[p].emit
    && s.pairs[p].runs <= u.pairs[p].runs && s.pairs[p].reports <= u.pairs[p].reports
  }

  lemma LoopKeepsEnds(c: Config, s: Bus, a: Action, p: nat)
    requires Loops(a) && LoopEnabled(c, s, a) && p < |s.pairs|
    ensures EndsKept(s, LoopStep(c, s, a), p)
  {
  }

  lemma TaskKeepsEnds(c: Config, s: Bus, a: Action, p: nat)
    requires Tasks(a) && TaskEnabled(c, s, a) && p < |s.pairs|
    ensures EndsKept(s, TaskStep(c, s, a), p)
  {
  }

  lemma EndsKeptStep(c: Config, s: Bus, a: Action, p: nat)
    requires Enabled(c, s, a) && p < |s.pairs|
    ensures EndsKept(s, Step(c, s, a), p)
  {
    hide LoopStep, TaskStep, LoopEnabled, TaskEnabled, AdmitStep, ReleaseStep;
    if Loops(a) {
      LoopKeepsEnds(c, s, a, p);
    } else if Tasks(a) {
      TaskKeepsEnds(c, s, a, p);
    }
  }

  /** No later step takes an end back, so the one run or the one report is final. */
  lemma {:induction false} EndIsFinal(c: Config, s: Bus, actions: seq<Action>, p: nat)
    requires Inv(c, s) && Runs(c, s, actions) && p < |s.pairs| && Ended(s.pairs[p].phase)
    ensures var u := After(c, s, actions);
            && |s.pairs| <= |u.pairs| && Ended(u.pairs[p].phase)
            && u.pairs[p].runs == s.pairs[p].runs && u.pairs[p].reports == s.pairs[p].reports
    decreases |actions|
  {
    hide Step, Enabled, EmitOk, Counted;
    if actions != [] {
      var t := Step(c, s, actions[0]);
      InvStep(c, s, actions[0]);
      EndsKeptStep(c, s, actions[0], p);
      assert PairOk(s, p) && PairOk(t, p);
      EndIsFinal(c, t, actions[1..], p);
    }
  }

  // ---------- Shutdown ----------

  ghost predicate AllEnded(s: Bus) {
    && (forall e | 0 <= e < |s.emits| :: !s.emits[e].live)
    && (forall p | 0 <= p < |s.pairs| :: s.pairs[p].phase == Done && s.pairs[p].runs + s.pairs[p].reports == 1)
  }

  lemma IdleMeansEnded(c: Config, s: Bus)
    requires Inv(c, s) && s.life.inflight == 0
    ensures AllEnded(s)
  {
    forall e | 0 <= e < |s.emits| ensures !s.emits[e].live {
      SumAtLeast(LiveEmit, s.emits, e);
    }
    forall p | 0 <= p < |s.pairs|
      ensures s.pairs[p].phase == Done && s.pairs[p].runs + s.pairs[p].reports == 1
    {
      SumAtLeast(HoldsCount, s.pairs, p);
      assert PairOk(s, p) && EmitOk(s, s.pairs[p].emit);
    }
  }

  /** An idle bus that is done takes no step that touches an emit or a pair. */
  lemma DoneStep(c: Config, s: Bus, a: Action)
    requires AllEnded(s) && s.life.done && Enabled(c, s, a)
    ensures var u := Step(c, s, a); u.life.done && u.pairs == s.pairs && u.emits == s.emits
  {
    hide LoopStep, TaskStep, EndPair, EndEmit;
  }

  lemma {:induction false} DoneStays(c: Config, s: Bus, actions: seq<Action>)
    requires Inv(c, s) && s.life.done && Runs(c, s, actions)
    ensures var u := After(c, s, actions); u.life.done && u.pairs == s.pairs && u.emits == s.emits
    decreases |actions|
  {
    hide Step, Enabled, Shaped, AllEnded;
    if actions != [] {
      IdleMeansEnded(c, s);
      DoneStep(c, s, actions[0]);
      InvStep(c, s, actions[0]);
      DoneStays(c, Step(c, s, actions[0]), actions[1..]);
    }
  }

  /** When a Shutdown round finds the bus idle, which is when Shutdown returns nil, every
      admitted pair has ended exactly once, every Emit returned, and nothing is admitted or
      changes afterwards, whatever is called. */
  lemma ShutdownNilMeansAllEnded(c: Config, before: seq<Action>, later: seq<Action>)
    requires Runs(c, EMPTY, before)
    requires WaitStep(After(c, EMPTY, before).life).1.None?
    requires Runs(c, Step(c, After(c, EMPTY, before), ShutdownRound), later)
    ensures var s := Step(c, After(c, EMPTY, before), ShutdownRound);
            var u := After(c, s, later);
            AllEnded(s) && u.pairs == s.pairs && u.emits == s.emits
  {
    InvReached(c, before);
    var s := After(c, EMPTY, before);
    InvStep(c, s, ShutdownRound);
    IdleMeansEnded(c, Step(c, s, ShutdownRound));
    DoneStays(c, Step(c, s, ShutdownRound), later);
  }

  // ---------- the overflow policies ----------

  /** Pair p changes and no other. */
  predicate Changes(s: Bus, u: Bus, p: nat) {
    p < |s.pairs| && p < |u.pairs| && u.pairs == s.pairs[p := u.pairs[p]]
  }

  /** The pair a step of a loop or a task is about. */
  function Target(s: Bus, a: Action): nat
    requires Loops(a) || Tasks(a)
    requires Loops(a) ==> a.e < |s.emits|
  {
    if Loops(a) then s.emits[a.e].next else a.p
  }

  lemma LoopChanges(c: Config, s: Bus, a: Action)
    requires Loops(a) && LoopEnabled(c, s, a)
    ensures a.e < |s.emits| && Changes(s, LoopStep(c, s, a), Target(s, a))
  {
  }

  lemma TaskChanges(c: Config, s: Bus, a: Action)
    requires Tasks(a) && TaskEnabled(c, s, a)
    ensures Changes(s, TaskStep(c, s, a), a.p)
  {
  }

  /** Only the blocking policy waits for room; a parked task holds room, except under the unbounded
      policy, which uses none. */
  predicate PairPolicy(c: Config, x: Pair) {
    && (x.phase.Room? ==> c.overflow.Block?)
    && (x.phase.Parked? ==> (x.phase.budget <==> !c.overflow.Unbounded?))
    && (HoldsRoom(x) > 0 ==> !c.overflow.Unbounded?)
  }

  ghost predicate Policy(c: Config, s: Bus) {
    forall p | 0 <= p < |s.pairs| :: PairPolicy(c, s.pairs[p])
  }

  lemma LoopPolicy(c: Config, s: Bus, a: Action)
    requires Policy(c, s) && Loops(a) && LoopEnabled(c, s, a)
    ensures Policy(c, LoopStep(c, s, a))
  {
    var p, u := Target(s, a), LoopStep(c, s, a);
    LoopChanges(c, s, a);
    assert PairPolicy(c, s.pairs[p]);
    assert PairPolicy(c, u.pairs[p]);
  }

  lemma TaskPolicy(c: Config, s: Bus, a: Action)
    requires Policy(c, s) && Tasks(a) && TaskEnabled(c, s, a)
    ensures Policy(c, TaskStep(c, s, a))
  {
    TaskChanges(c, s, a);
    assert PairPolicy(c, s.pairs[a.p]);
    assert PairPolicy(c, TaskStep(c, s, a).pairs[a.p]);
  }

  lemma PolicyStep(c: Config, s: Bus, a: Action)
    requires Policy(c, s) && Enabled(c, s, a)
    ensures Policy(c, Step(c, s, a))
  {
    hide LoopStep, TaskStep, LoopEnabled, TaskEnabled, AdmitStep, ReleaseStep;
    if Loops(a) {
      LoopPolicy(c, s, a);
    } else if Tasks(a) {
      TaskPolicy(c, s, a);
    }
  }

  lemma {:induction false} PolicyRun(c: Config, s: Bus, actions: seq<Action>)
    requires Policy(c, s) && Runs(c, s, actions)
    ensures Policy(c, After(c, s, actions))
    decreases |actions|
  {
    hide Step, Enabled, Policy;
    if actions != [] {
      PolicyStep(c, s, actions[0]);
      PolicyRun(c, Step(c, s, actions[0]), actions[1..]);
    }
  }

  function Parks(p: Pair): nat {
    if p.phase.Parked? then 1 else 0
  }

  lemma {:induction false} ParkedHoldRoom(c: Config, pairs: seq<Pair>)
    requires !c.overflow.Unbounded? && forall p | 0 <= p < |pairs| :: PairPolicy(c, pairs[p])
    ensures Sum(Parks, pairs) <= Sum(HoldsRoom, pairs)
  {
    if pairs != [] {
      ParkedHoldRoom(c, pairs[..|pairs| - 1]);
      assert PairPolicy(c, pairs[|pairs| - 1]);
    }
  }

  /** In every interleaving: an emitter waits for queue room only under the blocking policy; under the
      unbounded policy no queue token is ever taken; and under the others at most QueueSize tasks are
      parked. */
  lemma OnlyBlockWaits(c: Config, actions: seq<Action>)
    requires Runs(c, EMPTY, actions)
    ensures var s := After(c, EMPTY, actions);
            && (!c.overflow.Block? ==> forall p | 0 <= p < |s.pairs| :: !s.pairs[p].phase.Room?)
            && (c.overflow.Unbounded? ==> s.pending == 0)
            && (!c.overflow.Unbounded? ==> Sum(Parks, s.pairs) <= c.queueSize)
  {
    hide Step, Enabled, Shaped;
    InvReached(c, actions);
    PolicyRun(c, EMPTY, actions);
    var s := After(c, EMPTY, actions);
    if !c.overflow.Unbounded? {
      ParkedHoldRoom(c, s.pairs);
    } else if s.pending > 0 {
      var p := SumWitness(HoldsRoom, s.pairs);
    }
  }

  /** A handler of an emit made outside the bus only runs in an execution slot, so at most
      MaxConcurrent of them run; a nested emit is the one that runs its handlers without. */
  lemma OutsideRunsInSlots(c: Config, actions: seq<Action>, p: nat)
    requires Runs(c, EMPTY, actions) && p < |After(c, EMPTY, actions).pairs|
    requires After(c, EMPTY, actions).pairs[p].phase.Running?
    ensures var s := After(c, EMPTY, actions);
            var x := s.pairs[p];
            x.emit < |s.emits| && (!s.emits[x.emit].nested ==> HoldsSlot(x) == 1)
  {
    hide Step, Enabled, Counted, EmitOk;
    InvReached(c, actions);
    assert PairOk(After(c, EMPTY, actions), p);
  }

  // ---------- exactly when a pair ends ----------

  function RunsOf(p: Pair): nat { p.runs }

  function ReportsOf(p: Pair): nat { p.reports }

  /** The step ends its pair by a report: a task that is tracked after the deadline, a full queue under
      the drop policy, an emitter that gives up, and the tasks a cancelled bus finds waiting. */
  predicate EndsByReport(c: Config, s: Bus, a: Action) {
    match a
    case TrackNext(_) => s.life.forced
    case Spill(_) => c.overflow.Drop? && s.pending == c.queueSize
    case EmitterGone(_) => true
    case RoomInterrupted(_) => true
    case ParkedInterrupted(_) => true
    case Start(_) => s.cancelled
    case _ => false
  }

  /** The step runs its handler: in a slot that is free, inline when the emit is nested and none is, or
      in the slot a parked task got. */
  predicate EndsByRun(s: Bus, a: Action) {
    match a
    case TakeSlot(_) => true
    case NoSlot(e) => e < |s.emits| && s.emits[e].nested
    case Start(_) => !s.cancelled
    case _ => false
  }

  /** One pair of u gained so many runs and reports over s. */
  predicate Gains(s: Bus, u: Bus, p: nat, runs: nat, reports: nat) {
    && Changes(s, u, p)
    && u.pairs[p].runs == s.pairs[p].runs + runs && u.pairs[p].reports == s.pairs[p].reports + reports
  }

  ghost predicate Totals(s: Bus, u: Bus, runs: nat, reports: nat) {
    && Sum(RunsOf, u.pairs) == Sum(RunsOf, s.pairs) + runs
    && Sum(ReportsOf, u.pairs) == Sum(ReportsOf, s.pairs) + reports
  }

  lemma GainsTotal(s: Bus, u: Bus, p: nat, runs: nat, reports: nat)
    requires Gains(s, u, p, runs, reports)
    ensures Totals(s, u, runs, reports)
  {
    SumUpdate(RunsOf, s.pairs, p, u.pairs[p]);
    SumUpdate(ReportsOf, s.pairs, p, u.pairs[p]);
  }

  lemma LiveIsNotDone(s: Bus, e: nat)
    requires Counted(s) && e < |s.emits| && s.emits[e].live
    ensures !s.life.done
  {
    SumAtLeast(LiveEmit, s.emits, e);
  }

  lemma LoopGains(c: Config, s: Bus, a: Action)
    requires Loops(a) && LoopEnabled(c, s, a) && !s.life.done && s.pending <= c.queueSize
    ensures a.e < |s.emits|
            && Gains(s, LoopStep(c, s, a), Target(s, a), if EndsByRun(s, a) then 1 else 0,
                     if EndsByReport(c, s, a) then 1 else 0)
  {
  }

  lemma TaskGains(c: Config, s: Bus, a: Action)
    requires Tasks(a) && TaskEnabled(c, s, a)
    ensures Gains(s, TaskStep(c, s, a), a.p, if EndsByRun(s, a) then 1 else 0, if EndsByReport(c, s, a) then 1 else 0)
  {
  }

  lemma {:induction false} FreshCounts(e: nat, n: nat)
    ensures Sum(RunsOf, Fresh(e, n)) == Sum(ReportsOf, Fresh(e, n)) == 0
  {
    if n > 0 {
      assert Fresh(e, n)[..n - 1] == Fresh(e, n - 1);
      FreshCounts(e, n - 1);
    }
  }

  lemma AdmitTotals(s: Bus, nested: bool, n: nat, caller: Option<nat>)
    ensures Totals(s, Admit(s, nested, n, caller), 0, 0)
  {
    hide AdmitStep;
    FreshCounts(|s.emits|, n);
    SumConcat(RunsOf, s.pairs, Fresh(|s.emits|, n));
    SumConcat(ReportsOf, s.pairs, Fresh(|s.emits|, n));
  }

  lemma EmitInsideTotals(s: Bus, p: nat, nested: bool, n: nat)
    requires p < |s.pairs| && s.pairs[p].phase.Running?
    ensures Totals(s, AdmitInside(s, p, nested, n), 0, 0)
  {
    hide AdmitStep;
    var t, u := Admit(s, nested, n, Some(p)), AdmitInside(s, p, nested, n);
    AdmitTotals(s, nested, n, Some(p));
    if t != s {
      GainsTotal(t, u, p, 0, 0);
    }
  }

  lemma EndEmitTotals(s: Bus, e: nat)
    requires e < |s.emits|
    ensures Totals(s, EndEmit(s, e), 0, 0)
  {
    hide ReleaseStep;
    var u, q := EndEmit(s, e), s.emits[e].caller;
    if q.Some? && q.value < |s.pairs| && s.pairs[q.value].phase.Running? {
      GainsTotal(s, u, q.value, 0, 0);
    }
  }

  lemma EndPairTotals(s: Bus, p: nat)
    requires p < |s.pairs| && s.pairs[p].emit < |s.emits|
    ensures Totals(s, EndPair(s, p), 0, 0)
  {
    hide ReleaseStep;
    GainsTotal(s, EndPair(s, p), p, 0, 0);
  }

  lemma TotalsStep(c: Config, s: Bus, a: Action)
    requires Inv(c, s) && Enabled(c, s, a)
    ensures Totals(s, Step(c, s, a), if EndsByRun(s, a) then 1 else 0, if EndsByReport(c, s, a) then 1 else 0)
  {
    hide LoopStep, TaskStep, Admit, AdmitInside, EndPair, EndEmit, TaskEnabled, Counted, Shaped, Totals, Gains;
    if Loops(a) {
      LiveIsNotDone(s, a.e);
      LoopGains(c, s, a);
      GainsTotal(s, LoopStep(c, s, a), Target(s, a), if EndsByRun(s, a) then 1 else 0,
                 if EndsByReport(c, s, a) then 1 else 0);
    } else if Tasks(a) {
      TaskGains(c, s, a);
      GainsTotal(s, TaskStep(c, s, a), a.p, if EndsByRun(s, a) then 1 else 0, if EndsByReport(c, s, a) then 1 else 0);
    } else if a.EmitOutside? {
      AdmitTotals(s, a.nested, a.n, None);
    } else if a.EmitInside? {
      EmitInsideTotals(s, a.p, a.nested, a.n);
    } else if a.Release? {
      EndPairTotals(s, a.p);
    } else if a.EmitReturns? {
      EndEmitTotals(s, a.e);
    } else {
      SameTotals(s, Step(c, s, a));
    }
  }

  lemma SameTotals(s: Bus, u: Bus)
    requires u.pairs == s.pairs
    ensures Totals(s, u, 0, 0)
  {
  }

  /** In every interleaving, the only steps that run a handler or report in place of one, and each for
      one pair: a report comes from a refused track after the deadline, from the drop policy with the
      queue full, from an emitter that gives up, or from the cancelled bus; a run takes a free slot, or
      goes inline when the emit is nested and no slot is free. */
  lemma PairsEndExactly(c: Config, actions: seq<Action>, a: Action)
    requires Runs(c, EMPTY, actions) && Enabled(c, After(c, EMPTY, actions), a)
    ensures var s := After(c, EMPTY, actions);
            && Totals(s, Step(c, s, a), if EndsByRun(s, a) then 1 else 0, if EndsByReport(c, s, a) then 1 else 0)
            && (a.NoSlot? ==> s.exec == c.maxConcurrent)
            && (!s.life.forced && !s.cancelled && !a.EmitterGone?
                && Sum(ReportsOf, Step(c, s, a).pairs) > Sum(ReportsOf, s.pairs) ==>
                  c.overflow.Drop? && s.pending == c.queueSize)
  {
    hide Step, Shaped, Counted;
    InvReached(c, actions);
    TotalsStep(c, After(c, EMPTY, actions), a);
  }

  /** An emitter begins to wait only when the queue is full. */
  lemma WaitingMeansFull(c: Config, s: Bus, a: Action, p: nat)
    requires Enabled(c, s, a) && p < |s.pairs| && !s.pairs[p].phase.Room?
    ensures var u := Step(c, s, a);
            p < |u.pairs| && (u.pairs[p].phase.Room? ==> c.overflow.Block? && s.pending >= c.queueSize)
  {
    hide LoopStep, TaskStep, LoopEnabled, TaskEnabled, AdmitStep, ReleaseStep;
    if Tasks(a) {
      TaskWaitsNot(c, s, a, p);
    } else if Loops(a) {
      LoopWaits(c, s, a, p);
    }
  }

  lemma LoopWaits(c: Config, s: Bus, a: Action, p: nat)
    requires Loops(a) && LoopEnabled(c, s, a) && p < |s.pairs| && !s.pairs[p].phase.Room?
    ensures var u := LoopStep(c, s, a);
            p < |u.pairs| && (u.pairs[p].phase.Room? ==> c.overflow.Block? && s.pending >= c.queueSize)
  {
  }

  lemma TaskWaitsNot(c: Config, s: Bus, a: Action, p: nat)
    requires Tasks(a) && TaskEnabled(c, s, a) && p < |s.pairs| && !s.pairs[p].phase.Room?
    ensures var u := TaskStep(c, s, a); p < |u.pairs| && !u.pairs[p].phase.Room?
  {
  }

  ghost predicate NothingReported(s: Bus) {
    forall p | 0 <= p < |s.pairs| :: s.pairs[p].reports == 0
  }

  lemma {:induction false} NoTotalNoReport(pairs: seq<Pair>)
    ensures Sum(ReportsOf, pairs) == 0 <==> forall p | 0 <= p < |pairs| :: pairs[p].reports == 0
  {
    if pairs != [] {
      NoTotalNoReport(pairs[..|pairs| - 1]);
    }
  }

  /** No step of the run finds the queue full under the drop policy. */
  ghost predicate NeverDrops(c: Config, s: Bus, actions: seq<Action>)
    requires Runs(c, s, actions)
    decreases |actions|
  {
    actions == []
    || ((actions[0].Spill? && c.overflow.Drop? ==> s.pending < c.queueSize)
        && NeverDrops(c, Step(c, s, actions[0]), actions[1..]))
  }

  lemma {:induction false} BlockNeverDrops(c: Config, s: Bus, actions: seq<Action>)
    requires Runs(c, s, actions) && !c.overflow.Drop?
    ensures NeverDrops(c, s, actions)
    decreases |actions|
  {
    hide Step, Enabled;
    if actions != [] {
      BlockNeverDrops(c, Step(c, s, actions[0]), actions[1..]);
    }
  }

  lemma {:induction false} ReportRun(c: Config, s: Bus, actions: seq<Action>)
    requires Inv(c, s) && Runs(c, s, actions) && NeverDrops(c, s, actions) && Sum(ReportsOf, s.pairs) == 0
    requires forall i | 0 <= i < |actions| :: !actions[i].EmitterGone? && !actions[i].Interrupt?
    requires !s.life.forced && !s.cancelled
    ensures Sum(ReportsOf, After(c, s, actions).pairs) == 0 && !After(c, s, actions).life.forced
    decreases |actions|
  {
    hide Step, RestEnabled, Inv;
    if actions != [] {
      InvStep(c, s, actions[0]);
      TotalsStep(c, s, actions[0]);
      ForcedByInterruptOnly(c, s, actions[0]);
      ReportRun(c, Step(c, s, actions[0]), actions[1..]);
    }
  }

  lemma LoopForces(c: Config, s: Bus, a: Action)
    requires Loops(a) && LoopEnabled(c, s, a)
    ensures var u := LoopStep(c, s, a); u.life.forced == s.life.forced && u.cancelled == s.cancelled
  {
  }

  lemma TaskForces(c: Config, s: Bus, a: Action)
    requires Tasks(a) && TaskEnabled(c, s, a)
    ensures var u := TaskStep(c, s, a); u.life.forced == s.life.forced && u.cancelled == s.cancelled
  {
  }

  lemma ForcedByInterruptOnly(c: Config, s: Bus, a: Action)
    requires Enabled(c, s, a) && !s.life.forced && !s.cancelled
    ensures (Step(c, s, a).life.forced <==> a.Interrupt?) && !Step(c, s, a).cancelled
  {
    hide LoopStep, TaskStep, LoopEnabled, TaskEnabled;
    if Loops(a) {
      LoopForces(c, s, a);
    } else if Tasks(a) {
      TaskForces(c, s, a);
    }
  }

  /** Nothing is dropped while it need not be: under every policy, as long as no shutdown deadline
      passes, no emitter gives up and the drop policy never finds its queue full, an admitted pair ends
      only by running its handler, shutting down or not; and when Shutdown returned nil each one ran
      exactly once. */
  lemma EveryHandlerRuns(c: Config, actions: seq<Action>)
    requires Runs(c, EMPTY, actions) && NeverDrops(c, EMPTY, actions)
    requires forall i | 0 <= i < |actions| :: !actions[i].EmitterGone? && !actions[i].Interrupt?
    ensures var s := After(c, EMPTY, actions);
            && NothingReported(s)
            && (s.life.done ==> forall p | 0 <= p < |s.pairs| :: s.pairs[p].runs == 1)
  {
    hide Step, Enabled;
    InvReached(c, actions);
    ReportRun(c, EMPTY, actions);
    var s := After(c, EMPTY, actions);
    NoTotalNoReport(s.pairs);
    if s.life.done {
      IdleMeansEnded(c, s);
    }
  }

  // ---------- what is left to run once the bus is cancelled ----------

  ghost predicate EverCancelled(actions: seq<Action>) {
    exists i :: 0 <= i < |actions| && actions[i].Cancel?
  }

  lemma LoopCancels(c: Config, s: Bus, a: Action)
    requires Loops(a) && LoopEnabled(c, s, a)
    ensures LoopStep(c, s, a).cancelled == s.cancelled
  {
  }

  lemma TaskCancels(c: Config, s: Bus, a: Action)
    requires Tasks(a) && TaskEnabled(c, s, a)
    ensures TaskStep(c, s, a).cancelled == s.cancelled
  {
  }

  lemma CancelledStep(c: Config, s: Bus, a: Action)
    requires Enabled(c, s, a)
    ensures Step(c, s, a).cancelled <==> s.cancelled || a.Cancel?
  {
    hide LoopStep, TaskStep, LoopEnabled, TaskEnabled;
    if Loops(a) {
      LoopCancels(c, s, a);
    } else if Tasks(a) {
      TaskCancels(c, s, a);
    }
  }

  lemma {:induction false} CancelledRun(c: Config, s: Bus, actions: seq<Action>)
    requires Runs(c, s, actions)
    ensures After(c, s, actions).cancelled <==> s.cancelled || EverCancelled(actions)
    decreases |actions|
  {
    hide Step, Enabled;
    if actions != [] {
      var a, rest := actions[0], actions[1..];
      CancelledStep(c, s, a);
      CancelledRun(c, Step(c, s, a), rest);
      assert forall i | 0 <= i < |rest| :: rest[i] == actions[i + 1];
    }
  }

  /** In every interleaving, once a missed deadline cancelled the bus no parked task starts its handler,
      not even one that has a slot: what still runs is what its emitter starts itself, and a task that
      gets its slot is reported instead. Before that it is the other way round. */
  lemma CancelStopsParked(c: Config, actions: seq<Action>, a: Action)
    requires Runs(c, EMPTY, actions) && Enabled(c, After(c, EMPTY, actions), a)
    ensures var s := After(c, EMPTY, actions);
            var u := Step(c, s, a);
            && (a.Start? ==> if EverCancelled(actions) then Totals(s, u, 0, 1) else Totals(s, u, 1, 0))
            && (EverCancelled(actions) && Sum(RunsOf, u.pairs) > Sum(RunsOf, s.pairs) ==> a.TakeSlot? || a.NoSlot?)
  {
    hide Step, Enabled;
    CancelledRun(c, EMPTY, actions);
    InvReached(c, actions);
    TotalsStep(c, After(c, EMPTY, actions), a);
  }

  // ---------- exactly when an emit is admitted ----------

  ghost predicate EverInterrupted(actions: seq<Action>) {
    exists i :: 0 <= i < |actions| && actions[i].Interrupt?
  }

  ghost predicate EverShut(actions: seq<Action>) {
    exists i :: 0 <= i < |actions| && (actions[i].BeginShutdown? || actions[i].Interrupt?)
  }

  lemma LoopFlags(c: Config, s: Bus, a: Action)
    requires Loops(a) && LoopEnabled(c, s, a)
    ensures var u := LoopStep(c, s, a); u.life.closed == s.life.closed && u.life.forced == s.life.forced
  {
  }

  lemma TaskFlags(c: Config, s: Bus, a: Action)
    requires Tasks(a) && TaskEnabled(c, s, a)
    ensures var u := TaskStep(c, s, a); u.life.closed == s.life.closed && u.life.forced == s.life.forced
  {
  }

  lemma FlagsStep(c: Config, s: Bus, a: Action)
    requires Enabled(c, s, a)
    ensures var u := Step(c, s, a);
            && (u.life.forced <==> s.life.forced || a.Interrupt?)
            && (u.life.closed <==> s.life.closed || a.BeginShutdown? || a.Interrupt?)
  {
    hide LoopStep, TaskStep, LoopEnabled, TaskEnabled;
    if Loops(a) {
      LoopFlags(c, s, a);
    } else if Tasks(a) {
      TaskFlags(c, s, a);
    }
  }

  lemma {:induction false} FlagsRun(c: Config, s: Bus, actions: seq<Action>)
    requires Runs(c, s, actions)
    ensures var u := After(c, s, actions);
            && (u.life.forced <==> s.life.forced || EverInterrupted(actions))
            && (u.life.closed <==> s.life.closed || EverShut(actions))
    decreases |actions|
  {
    hide Step, Enabled;
    if actions != [] {
      var a, rest := actions[0], actions[1..];
      FlagsStep(c, s, a);
      FlagsRun(c, Step(c, s, a), rest);
      assert forall i | 0 <= i < |rest| :: rest[i] == actions[i + 1];
    }
  }

  /** The emit exists: its pairs are new and queued, and every other pair kept its counts. */
  ghost predicate Created(s: Bus, u: Bus, nested: bool, n: nat, caller: Option<nat>) {
    var k := |s.pairs|;
    && u.emits == s.emits + [Emit(nested, k, k + n, k, caller, true)]
    && |u.pairs| == k + n && (forall p | k <= p < k + n :: u.pairs[p] == Pair(|s.emits|, Queued, 0, 0))
    && (forall p | 0 <= p < k && caller != Some(p) :: u.pairs[p] == s.pairs[p])
  }

  /** Which emits get in. */
  ghost predicate Welcome(actions: seq<Action>, s: Bus, nested: bool) {
    && !EverInterrupted(actions) && !s.life.done
    && (!EverShut(actions) || (nested && s.life.inflight > 0))
  }

  lemma AdmitCreates(s: Bus, nested: bool, n: nat, caller: Option<nat>)
    ensures var u := Admit(s, nested, n, caller);
            if !s.life.forced && !s.life.done && (!s.life.closed || (nested && s.life.inflight > 0))
            then Created(s, u, nested, n, caller) else u == s
  {
  }

  /** In every interleaving an emit from outside a handler creates its pairs, one per subscribed
      handler, if and only if nothing interrupted the bus, no Shutdown returned nil, and no shutdown
      began or the emit carries a handler's context while work is in flight. A refused one changes
      nothing. */
  lemma EmitAdmittedExactly(c: Config, actions: seq<Action>, nested: bool, n: nat)
    requires Runs(c, EMPTY, actions) && n > 0
    ensures var s := After(c, EMPTY, actions);
            var u := Step(c, s, EmitOutside(nested, n));
            if Welcome(actions, s, nested) then Created(s, u, nested, n, None) else u == s
  {
    hide Loops, Tasks, AdmitStep, EverInterrupted, EverShut, Created;
    FlagsRun(c, EMPTY, actions);
    AdmitCreates(After(c, EMPTY, actions), nested, n, None);
    OutsideIsAdmit(c, After(c, EMPTY, actions), nested, n);
  }

  lemma OutsideIsAdmit(c: Config, s: Bus, nested: bool, n: nat)
    requires n > 0
    ensures Step(c, s, EmitOutside(nested, n)) == Admit(s, nested, n, None)
  {
  }

  /** And an emit from inside a handler creates its pairs if and only if nothing interrupted the bus,
      and no shutdown began or the handler emits with its own context: on a bus nobody shut down,
      always. */
  lemma HandlerEmitAdmittedExactly(c: Config, actions: seq<Action>, p: nat, nested: bool, n: nat)
    requires Runs(c, EMPTY, actions) && Enabled(c, After(c, EMPTY, actions), EmitInside(p, nested, n))
    ensures var s := After(c, EMPTY, actions);
            var u := Step(c, s, EmitInside(p, nested, n));
            if !EverInterrupted(actions) && (!EverShut(actions) || nested)
            then
              && Created(s, u, nested, n, Some(p))
              && u.pairs[p].phase == Running(s.pairs[p].phase.slot, Some(|s.emits|))
            else u == s
  {
    hide EverInterrupted, EverShut, Shaped, LoopStep, TaskStep, LoopEnabled, TaskEnabled, AdmitStep;
    var s := After(c, EMPTY, actions);
    FlagsRun(c, EMPTY, actions);
    InvReached(c, actions);
    SumAtLeast(HoldsCount, s.pairs, p);
    AdmitCreates(s, nested, n, Some(p));
  }

  // ---------- no self-emit deadlock ----------

  /** Handlers emit with their own context. */
  ghost predicate OwnContext(actions: seq<Action>) {
    forall i | 0 <= i < |actions| && actions[i].EmitInside? :: actions[i].nested
  }

  ghost predicate Disciplined(s: Bus) {
    forall e | 0 <= e < |s.emits| && s.emits[e].caller.Some? :: s.emits[e].nested
  }

  lemma LoopEmits(c: Config, s: Bus, a: Action)
    requires Loops(a) && LoopEnabled(c, s, a)
    ensures var u := LoopStep(c, s, a);
            u.emits == s.emits
            || (a.e < |s.emits| && u.emits == s.emits[a.e := s.emits[a.e].(next := s.emits[a.e].next + 1)])
  {
  }

  lemma TaskEmits(c: Config, s: Bus, a: Action)
    requires Tasks(a) && TaskEnabled(c, s, a)
    ensures TaskStep(c, s, a).emits == s.emits
  {
  }

  lemma DisciplinedStep(c: Config, s: Bus, a: Action)
    requires Disciplined(s) && Enabled(c, s, a) && (a.EmitInside? ==> a.nested)
    ensures Disciplined(Step(c, s, a))
  {
    hide LoopStep, TaskStep, LoopEnabled, TaskEnabled, AdmitStep, ReleaseStep;
    if Loops(a) {
      LoopEmits(c, s, a);
    } else if Tasks(a) {
      TaskEmits(c, s, a);
    }
  }

  lemma {:induction false} DisciplinedRun(c: Config, s: Bus, actions: seq<Action>)
    requires Disciplined(s) && Runs(c, s, actions) && OwnContext(actions)
    ensures Disciplined(After(c, s, actions))
    decreases |actions|
  {
    hide Step, Enabled, Disciplined;
    if actions != [] {
      DisciplinedStep(c, s, actions[0]);
      DisciplinedRun(c, Step(c, s, actions[0]), actions[1..]);
    }
  }

  /** No emit of a handler can wait for queue room: they are all nested, or the policy never makes
      anybody wait. */
  ghost predicate Sheltered(c: Config, s: Bus) {
    Disciplined(s) || NoBlocking(c, s)
  }

  ghost predicate NoBlocking(c: Config, s: Bus) {
    !c.overflow.Block? && Policy(c, s)
  }

  /** An emit that cannot wait for queue room always goes on: the innermost call below it can. */
  lemma {:induction false} NestedGoesOn(c: Config, s: Bus, e: nat) returns (a: Action)
    requires Inv(c, s) && Sheltered(c, s)
    requires e < |s.emits| && s.emits[e].live && (s.emits[e].nested || NoBlocking(c, s))
    ensures Internal(a) && Enabled(c, s, a)
    decreases |s.emits| - e
  {
    assert EmitOk(s, e);
    var p := s.emits[e].next;
    if p == s.emits[e].hi {
      return EmitReturns(e);
    }
    assert PairOk(s, p);
    match s.pairs[p].phase {
      case Queued => return TrackNext(e);
      case Tracked => return if s.exec < c.maxConcurrent then TakeSlot(e) else NoSlot(e);
      case Spilled => return Spill(e);
      case Running(_, call) =>
        if call.None? {
          return Finish(p);
        }
        a := NestedGoesOn(c, s, call.value);
      case Closing => return Action.Release(p);
    }
  }

  /** With every slot taken, one of the holders can go on. */
  lemma SlotHolderGoesOn(c: Config, s: Bus) returns (a: Action)
    requires Inv(c, s) && Sheltered(c, s) && s.exec > 0
    ensures Internal(a) && Enabled(c, s, a)
  {
    var p := SumWitness(HoldsSlot, s.pairs);
    assert PairOk(s, p);
    SumAtLeast(HoldsRoom, s.pairs, p);
    match s.pairs[p].phase {
      case Slotted(budget) => return if budget then LeaveQueue(p) else Start(p);
      case Running(_, call) =>
        if call.None? {
          return Finish(p);
        }
        a := NestedGoesOn(c, s, call.value);
      case Returned => return FreeSlot(p);
    }
  }

  lemma ParkedGoesOn(c: Config, s: Bus, p: nat) returns (a: Action)
    requires Inv(c, s) && Sheltered(c, s) && c.maxConcurrent > 0
    requires p < |s.pairs| && s.pairs[p].phase.Parked?
    ensures Internal(a) && Enabled(c, s, a)
  {
    if s.exec < c.maxConcurrent {
      return SlotFound(p);
    }
    a := SlotHolderGoesOn(c, s);
  }

  /** With the queue full, a task that holds queue room has something ahead of it that can go on. */
  lemma QueueGoesOn(c: Config, s: Bus) returns (a: Action)
    requires Inv(c, s) && Sheltered(c, s) && c.maxConcurrent > 0 && s.pending > 0
    ensures Internal(a) && Enabled(c, s, a)
  {
    var p := SumWitness(HoldsRoom, s.pairs);
    if s.pairs[p].phase.Slotted? {
      return LeaveQueue(p);
    }
    a := ParkedGoesOn(c, s, p);
  }

  lemma EmitGoesOn(c: Config, s: Bus, e: nat) returns (a: Action)
    requires Inv(c, s) && Sheltered(c, s) && c.maxConcurrent > 0 && c.queueSize > 0
    requires e < |s.emits| && s.emits[e].live
    ensures Internal(a) && Enabled(c, s, a)
  {
    assert EmitOk(s, e);
    var p := s.emits[e].next;
    if p == s.emits[e].hi {
      return EmitReturns(e);
    }
    assert PairOk(s, p);
    match s.pairs[p].phase {
      case Queued => return TrackNext(e);
      case Tracked => return if s.exec < c.maxConcurrent then TakeSlot(e) else NoSlot(e);
      case Spilled => return Spill(e);
      case Room =>
        if s.pending < c.queueSize {
          return RoomFound(e);
        }
        a := QueueGoesOn(c, s);
      case Running(_, call) =>
        if call.None? {
          return Finish(p);
        }
        a := NestedGoesOn(c, s, call.value);
      case Closing => return Action.Release(p);
    }
  }

  lemma PairGoesOn(c: Config, s: Bus, p: nat) returns (a: Action)
    requires Inv(c, s) && Sheltered(c, s) && c.maxConcurrent > 0 && c.queueSize > 0
    requires p < |s.pairs| && s.pairs[p].phase != Done
    ensures Internal(a) && Enabled(c, s, a)
  {
    assert PairOk(s, p);
    var e := s.pairs[p].emit;
    assert EmitOk(s, e);
    if p >= s.emits[e].next {
      a := EmitGoesOn(c, s, e);
      return;
    }
    match s.pairs[p].phase {
      case Parked(_) => a := ParkedGoesOn(c, s, p);
      case Closing => return Action.Release(p);
      case Running(_, call) =>
        if call.None? {
          return Finish(p);
        }
        a := NestedGoesOn(c, s, call.value);
      case Slotted(budget) =>
        SumAtLeast(HoldsRoom, s.pairs, p);
        SumAtLeast(HoldsSlot, s.pairs, p);
        return if budget then LeaveQueue(p) else Start(p);
      case Returned =>
        SumAtLeast(HoldsSlot, s.pairs, p);
        return FreeSlot(p);
    }
  }

  ghost predicate Stuck(c: Config, s: Bus) {
    forall a | Internal(a) :: !Enabled(c, s, a)
  }

  lemma ShelteredRun(c: Config, actions: seq<Action>)
    requires Runs(c, EMPTY, actions) && (OwnContext(actions) || !c.overflow.Block?)
    ensures Sheltered(c, After(c, EMPTY, actions))
  {
    if OwnContext(actions) {
      DisciplinedRun(c, EMPTY, actions);
    } else {
      PolicyRun(c, EMPTY, actions);
    }
  }

  /** No self-emit deadlock: while handlers emit with their own context, and with any contexts where
      the policy does not block, a reachable state that still has an unfinished emit or pair always
      has an enabled step of the bus or of a handler. */
  lemma NoSelfEmitDeadlock(c: Config, actions: seq<Action>)
    requires c.maxConcurrent > 0 && c.queueSize > 0
    requires Runs(c, EMPTY, actions) && (OwnContext(actions) || !c.overflow.Block?)
    ensures var s := After(c, EMPTY, actions); Stuck(c, s) ==> AllEnded(s)
  {
    InvReached(c, actions);
    ShelteredRun(c, actions);
    StuckMeansEnded(c, After(c, EMPTY, actions));
  }

  lemma StuckMeansEnded(c: Config, s: Bus)
    requires c.maxConcurrent > 0 && c.queueSize > 0 && Inv(c, s) && Sheltered(c, s)
    ensures Stuck(c, s) ==> AllEnded(s)
  {
    if Stuck(c, s) {
      forall e | 0 <= e < |s.emits| ensures !s.emits[e].live {
        if s.emits[e].live {
          var a := EmitGoesOn(c, s, e);
        }
      }
      forall p | 0 <= p < |s.pairs|
        ensures s.pairs[p].phase == Done && s.pairs[p].runs + s.pairs[p].reports == 1
      {
        assert PairOk(s, p);
        if s.pairs[p].phase != Done {
          var a := PairGoesOn(c, s, p);
        }
      }
    }
  }

  // ---------- the backlog drains ----------

  /** Steps of the bus and of the handler a pair still has ahead. */
  function Left(p: Pair): nat {
    match p.phase
    case Queued => 10
    case Tracked => 9
    case Spilled => 8
    case Room => 7
    case Parked(_) => 6
    case Slotted(budget) => if budget then 5 else 4
    case Running(_, _) => 3
    case Returned => 2
    case Closing => 1
    case Done => 0
  }

  ghost function Backlog(s: Bus): nat {
    Sum(Left, s.pairs) + Sum(LiveEmit, s.emits)
  }

  /** One pair is nearer to its end and no Emit returned. */
  predicate Nearer(s: Bus, u: Bus, p: nat, e: nat) {
    && Changes(s, u, p) && Left(u.pairs[p]) < Left(s.pairs[p])
    && (u.emits == s.emits
        || (e < |s.emits| && u.emits == s.emits[e := s.emits[e].(next := s.emits[e].next + 1)]))
  }

  lemma NearerShrinks(s: Bus, u: Bus, p: nat, e: nat)
    requires Nearer(s, u, p, e)
    ensures Backlog(u) < Backlog(s)
  {
    hide Left;
    SumUpdate(Left, s.pairs, p, u.pairs[p]);
    if u.emits != s.emits {
      LiveSums(s.emits, e, u.emits[e]);
    }
  }

  lemma TaskNearer(c: Config, s: Bus, a: Action)
    requires Tasks(a) && TaskEnabled(c, s, a)
    ensures Nearer(s, TaskStep(c, s, a), a.p, 0)
  {
  }

  lemma LoopNearer(c: Config, s: Bus, a: Action)
    requires Loops(a) && LoopEnabled(c, s, a)
    ensures a.e < |s.emits| && Nearer(s, LoopStep(c, s, a), Target(s, a), a.e)
  {
    hide Changes;
    LoopChanges(c, s, a);
  }

  lemma ReleaseNearer(s: Bus, p: nat)
    requires RestEnabled(s, Action.Release(p))
    ensures Nearer(s, EndPair(s, p), p, s.pairs[p].emit)
  {
  }

  lemma ReturnShrinks(s: Bus, e: nat)
    requires RestEnabled(s, EmitReturns(e)) && EmitOk(s, e)
    ensures Backlog(EndEmit(s, e)) < Backlog(s)
  {
    hide ReleaseStep;
    var u := EndEmit(s, e);
    LiveSums(s.emits, e, u.emits[e]);
    if s.emits[e].caller.Some? {
      var q := s.emits[e].caller.value;
      SumUpdate(Left, s.pairs, q, u.pairs[q]);
    }
  }

  /** Every step that is not a new emit or a shutdown call shrinks the backlog. */
  lemma InternalShrinks(c: Config, s: Bus, a: Action)
    requires Inv(c, s) && Enabled(c, s, a) && (Internal(a) || a.EmitterGone?)
    ensures Backlog(Step(c, s, a)) < Backlog(s)
  {
    hide LoopStep, TaskStep, EndPair, EndEmit, LoopEnabled, TaskEnabled, Backlog, Nearer, EmitOk, PairOk;
    if Loops(a) {
      LoopNearer(c, s, a);
      NearerShrinks(s, LoopStep(c, s, a), Target(s, a), a.e);
    } else if Tasks(a) {
      TaskNearer(c, s, a);
      NearerShrinks(s, TaskStep(c, s, a), a.p, 0);
    } else if a.Release? {
      ReleaseNearer(s, a.p);
      NearerShrinks(s, EndPair(s, a.p), a.p, s.pairs[a.p].emit);
    } else {
      ReturnShrinks(s, a.e);
    }
  }

  predicate NewWork(a: Action) {
    a.EmitOutside? || a.EmitInside?
  }

  /** A step of the bus or a handler, or an emitter that gives up. */
  predicate Progress(a: Action) {
    Internal(a) || a.EmitterGone?
  }

  function ProgressIn(actions: seq<Action>): nat
    decreases |actions|
  {
    if actions == [] then 0 else (if Progress(actions[0]) then 1 else 0) + ProgressIn(actions[1..])
  }

  /** Shutdown, its deadline and its cancellation leave the backlog alone. */
  lemma BacklogStep(c: Config, s: Bus, a: Action)
    requires Inv(c, s) && Enabled(c, s, a) && !NewWork(a)
    ensures Backlog(Step(c, s, a)) + (if Progress(a) then 1 else 0) <= Backlog(s)
  {
    hide LoopEnabled, TaskEnabled, LoopStep, TaskStep, Inv;
    if Progress(a) {
      InternalShrinks(c, s, a);
    }
  }

  lemma {:induction false} BacklogRun(c: Config, s: Bus, actions: seq<Action>)
    requires Inv(c, s) && Runs(c, s, actions)
    requires forall i | 0 <= i < |actions| :: !NewWork(actions[i])
    ensures ProgressIn(actions) + Backlog(After(c, s, actions)) <= Backlog(s)
    decreases |actions|
  {
    hide Step, Enabled, Inv, Backlog;
    if actions != [] {
      InvStep(c, s, actions[0]);
      BacklogStep(c, s, actions[0]);
      BacklogRun(c, Step(c, s, actions[0]), actions[1..]);
    }
  }

  lemma {:induction false} ShelterStays(c: Config, s: Bus, actions: seq<Action>)
    requires Inv(c, s) && Sheltered(c, s) && Runs(c, s, actions)
    requires forall i | 0 <= i < |actions| :: !NewWork(actions[i])
    ensures Sheltered(c, After(c, s, actions))
  {
    if Disciplined(s) {
      DisciplinedRun(c, s, actions);
    } else {
      PolicyRun(c, s, actions);
    }
  }

  /** The backlog drains under every schedule: after any run with handlers emitting in their own
      context, or with any contexts where the policy does not block, a schedule without new emits
      makes no more steps of progress than the backlog, shut down or not; and where no step of
      progress is left every admitted pair has ended exactly once. No fairness is assumed. */
  lemma EveryScheduleDrains(c: Config, before: seq<Action>, later: seq<Action>)
    requires c.maxConcurrent > 0 && c.queueSize > 0
    requires Runs(c, EMPTY, before) && (OwnContext(before) || !c.overflow.Block?)
    requires Runs(c, After(c, EMPTY, before), later)
    requires forall i | 0 <= i < |later| :: !NewWork(later[i])
    ensures var s := After(c, EMPTY, before);
            var u := After(c, s, later);
            ProgressIn(later) <= Backlog(s) && (Stuck(c, u) ==> AllEnded(u))
  {
    var s := After(c, EMPTY, before);
    InvReached(c, before);
    ShelteredRun(c, before);
    BacklogRun(c, s, later);
    InvRun(c, s, later);
    ShelterStays(c, s, later);
    StuckMeansEnded(c, After(c, s, later));
  }

  // ---------- under the blocking policy the context discipline is needed ----------

  ghost predicate Reaches(c: Config, s: Bus, t: Bus) {
    exists actions :: Runs(c, s, actions) && After(c, s, actions) == t
  }

  lemma {:induction false} RunsThen(c: Config, s: Bus, actions: seq<Action>, a: Action)
    requires Runs(c, s, actions) && Enabled(c, After(c, s, actions), a)
    ensures Runs(c, s, actions + [a]) && After(c, s, actions + [a]) == Step(c, After(c, s, actions), a)
    decreases |actions|
  {
    if actions == [] {
      var t := Step(c, s, a);
      assert Runs(c, t, []) && After(c, t, []) == t;
      assert [a][1..] == [] && actions + [a] == [a];
    } else {
      assert (actions + [a])[1..] == actions[1..] + [a];
      RunsThen(c, Step(c, s, actions[0]), actions[1..], a);
    }
  }

  lemma Next(c: Config, s: Bus, t: Bus, a: Action)
    requires Reaches(c, s, t) && Enabled(c, t, a)
    ensures Reaches(c, s, Step(c, t, a))
  {
    var actions :| Runs(c, s, actions) && After(c, s, actions) == t;
    RunsThen(c, s, actions, a);
  }

  predicate Untouched(s: Bus) {
    !s.life.closed && !s.life.forced && !s.life.done && !s.cancelled
  }

  function FilledPhase(c: Config, k: nat, p: nat): Phase {
    if p >= k then Queued else if p < c.maxConcurrent then Running(true, None) else Parked(true)
  }

  /** One emit over MaxConcurrent + QueueSize handlers, k of them dispatched: first the slots fill
      up, then the queue. The pair at hand, if there is one left, is in the given phase. */
  ghost predicate FillingAt(c: Config, s: Bus, k: nat, phase: Phase) {
    var all := c.maxConcurrent + c.queueSize;
    && Untouched(s) && k <= all
    && s.emits == [Emit(false, 0, all, k, None, true)]
    && |s.pairs| == all && (forall p | 0 <= p < all && p != k :: s.pairs[p].phase == FilledPhase(c, k, p))
    && (k < all ==> s.pairs[k].phase == phase)
    && s.exec == (if k < c.maxConcurrent then k else c.maxConcurrent)
    && s.pending == (if k < c.maxConcurrent then 0 else k - c.maxConcurrent)
  }

  ghost predicate Filling(c: Config, s: Bus, k: nat) {
    FillingAt(c, s, k, Queued)
  }

  lemma FillTrack(c: Config, s: Bus, k: nat) returns (u: Bus)
    requires Filling(c, s, k) && k < c.maxConcurrent + c.queueSize && Reaches(c, EMPTY, s)
    ensures FillingAt(c, u, k, Tracked) && Reaches(c, EMPTY, u)
  {
    hide Runs, After, Reaches;
    u := LoopStep(c, s, TrackNext(0));
    Next(c, EMPTY, s, TrackNext(0));
  }

  lemma FillSlot(c: Config, s: Bus, k: nat) returns (u: Bus)
    requires FillingAt(c, s, k, Tracked) && k < c.maxConcurrent && Reaches(c, EMPTY, s)
    ensures Filling(c, u, k + 1) && Reaches(c, EMPTY, u)
  {
    hide Runs, After, Reaches;
    u := LoopStep(c, s, TakeSlot(0));
    Next(c, EMPTY, s, TakeSlot(0));
  }

  lemma FillFull(c: Config, s: Bus, k: nat) returns (u: Bus)
    requires FillingAt(c, s, k, Tracked) && c.maxConcurrent <= k < c.maxConcurrent + c.queueSize
    requires Reaches(c, EMPTY, s)
    ensures FillingAt(c, u, k, Spilled) && Reaches(c, EMPTY, u)
  {
    hide Runs, After, Reaches;
    u := LoopStep(c, s, NoSlot(0));
    Next(c, EMPTY, s, NoSlot(0));
  }

  lemma FillQueue(c: Config, s: Bus, k: nat) returns (u: Bus)
    requires FillingAt(c, s, k, Spilled) && c.maxConcurrent <= k < c.maxConcurrent + c.queueSize
    requires c.overflow.Block? && Reaches(c, EMPTY, s)
    ensures Filling(c, u, k + 1) && Reaches(c, EMPTY, u)
  {
    hide Runs, After, Reaches;
    u := LoopStep(c, s, Spill(0));
    Next(c, EMPTY, s, Spill(0));
  }

  lemma StartIsReached(c: Config)
    ensures Reaches(c, EMPTY, EMPTY)
  {
    assert Runs(c, EMPTY, []) && After(c, EMPTY, []) == EMPTY;
  }

  lemma {:induction false} Fill(c: Config, k: nat) returns (s: Bus)
    requires c.overflow.Block? && c.maxConcurrent > 0 && k <= c.maxConcurrent + c.queueSize
    ensures Filling(c, s, k) && Reaches(c, EMPTY, s)
  {
    hide Reaches, Runs, After;
    if k == 0 {
      StartIsReached(c);
      var a := EmitOutside(false, c.maxConcurrent + c.queueSize);
      Next(c, EMPTY, EMPTY, a);
      return Step(c, EMPTY, a);
    }
    s := Fill(c, k - 1);
    s := FillTrack(c, s, k - 1);
    if k <= c.maxConcurrent {
      s := FillSlot(c, s, k - 1);
    } else {
      s := FillFull(c, s, k - 1);
      s := FillQueue(c, s, k - 1);
    }
  }

  function WaitingPhase(c: Config, k: nat, p: nat): Phase {
    if p < c.maxConcurrent then Running(true, if p < k then Some(1 + p) else None)
    else if p < c.maxConcurrent + c.queueSize then Parked(true)
    else Room
  }

  /** Slots and queue are full, and k of the running handlers emitted with a foreign context: each
      of those emits waits for queue room. */
  ghost predicate WaitingForRoom(c: Config, s: Bus, k: nat) {
    var all := c.maxConcurrent + c.queueSize;
    && Untouched(s) && k <= c.maxConcurrent
    && |s.emits| == 1 + k && !s.emits[0].live
    && (forall e | 1 <= e <= k :: s.emits[e] == Emit(false, all + e - 1, all + e, all + e - 1, Some(e - 1), true))
    && |s.pairs| == all + k && (forall p | 0 <= p < all + k :: s.pairs[p].phase == WaitingPhase(c, k, p))
    && s.exec == c.maxConcurrent && s.pending == c.queueSize
  }

  lemma OuterReturns(c: Config, s: Bus) returns (u: Bus)
    requires Filling(c, s, c.maxConcurrent + c.queueSize) && Reaches(c, EMPTY, s)
    ensures WaitingForRoom(c, u, 0) && Reaches(c, EMPTY, u)
  {
    u := Step(c, s, EmitReturns(0));
    Next(c, EMPTY, s, EmitReturns(0));
  }

  /** The handler of pair k emits once with a foreign context. */
  ghost predicate Emitted(c: Config, s: Bus, u: Bus, k: nat, phase: Phase) {
    var p := |s.pairs|;
    && Untouched(u) && u.exec == s.exec && u.pending == s.pending
    && u.emits == s.emits + [Emit(false, p, p + 1, p, Some(k), true)]
    && |u.pairs| == p + 1 && k < p && u.pairs[p].phase == phase
    && u.pairs[k].phase == Running(true, Some(|s.emits|))
    && (forall q | 0 <= q < p && q != k :: u.pairs[q] == s.pairs[q])
  }

  lemma EmitForeign(c: Config, s: Bus, k: nat) returns (u: Bus)
    requires WaitingForRoom(c, s, k) && k < c.maxConcurrent && Reaches(c, EMPTY, s)
    ensures Emitted(c, s, u, k, Queued) && Reaches(c, EMPTY, u)
  {
    u := Step(c, s, EmitInside(k, false, 1));
    Next(c, EMPTY, s, EmitInside(k, false, 1));
  }

  lemma TrackForeign(c: Config, s: Bus, t: Bus, k: nat) returns (u: Bus)
    requires Emitted(c, s, t, k, Queued) && Reaches(c, EMPTY, t)
    ensures Emitted(c, s, u, k, Tracked) && Reaches(c, EMPTY, u)
  {
    hide Runs, After, Reaches;
    var a := TrackNext(|s.emits|);
    u := LoopStep(c, t, a);
    Next(c, EMPTY, t, a);
  }

  lemma SpillForeign(c: Config, s: Bus, t: Bus, k: nat) returns (u: Bus)
    requires Emitted(c, s, t, k, Tracked) && s.exec >= c.maxConcurrent && Reaches(c, EMPTY, t)
    ensures Emitted(c, s, u, k, Spilled) && Reaches(c, EMPTY, u)
  {
    hide Runs, After, Reaches;
    var a := NoSlot(|s.emits|);
    u := LoopStep(c, t, a);
    Next(c, EMPTY, t, a);
  }

  lemma WaitForeign(c: Config, s: Bus, t: Bus, k: nat) returns (u: Bus)
    requires Emitted(c, s, t, k, Spilled) && c.overflow.Block? && s.pending >= c.queueSize && Reaches(c, EMPTY, t)
    ensures Emitted(c, s, u, k, Room) && Reaches(c, EMPTY, u)
  {
    hide Runs, After, Reaches;
    var a := Spill(|s.emits|);
    u := LoopStep(c, t, a);
    Next(c, EMPTY, t, a);
  }

  lemma OneMoreWaits(c: Config, s: Bus, u: Bus, k: nat)
    requires WaitingForRoom(c, s, k) && k < c.maxConcurrent && Emitted(c, s, u, k, Room)
    ensures WaitingForRoom(c, u, k + 1)
  {
    forall p | 0 <= p < |u.pairs| ensures u.pairs[p].phase == WaitingPhase(c, k + 1, p) {
      assert p < |s.pairs| ==> s.pairs[p].phase == WaitingPhase(c, k, p);
    }
  }

  lemma {:induction false} AllWait(c: Config, k: nat) returns (s: Bus)
    requires c.overflow.Block? && c.maxConcurrent > 0 && k <= c.maxConcurrent
    ensures WaitingForRoom(c, s, k) && Reaches(c, EMPTY, s)
  {
    hide Filling, FillingAt, Emitted, Reaches, WaitingPhase;
    if k == 0 {
      s := Fill(c, c.maxConcurrent + c.queueSize);
      s := OuterReturns(c, s);
    } else {
      var before := AllWait(c, k - 1);
      s := EmitForeign(c, before, k - 1);
      s := TrackForeign(c, before, s, k - 1);
      s := SpillForeign(c, before, s, k - 1);
      s := WaitForeign(c, before, s, k - 1);
      OneMoreWaits(c, before, s, k - 1);
    }
  }

  lemma EveryEmitWaits(c: Config, s: Bus, e: nat)
    requires WaitingForRoom(c, s, c.maxConcurrent) && e < |s.emits| && s.emits[e].live
    ensures s.emits[e].next < s.emits[e].hi && s.emits[e].next < |s.pairs| && s.pairs[s.emits[e].next].phase == Room
  {
    var p := s.emits[e].next;
    assert s.pairs[p].phase == WaitingPhase(c, c.maxConcurrent, p);
  }

  lemma EveryPairWaits(c: Config, s: Bus, p: nat)
    requires WaitingForRoom(c, s, c.maxConcurrent) && p < |s.pairs|
    ensures var x := s.pairs[p].phase; x.Room? || x.Parked? || (x.Running? && x.call.Some?)
  {
    assert s.pairs[p].phase == WaitingPhase(c, c.maxConcurrent, p);
  }

  lemma WaitingIsStuck(c: Config, s: Bus)
    requires c.maxConcurrent > 0 && c.queueSize > 0 && WaitingForRoom(c, s, c.maxConcurrent)
    ensures Stuck(c, s) && !AllEnded(s)
  {
    forall a | Internal(a) ensures !Enabled(c, s, a) {
      match a {
        case TrackNext(e) => if AtPair(s, e) { EveryEmitWaits(c, s, e); }
        case TakeSlot(e) => if AtPair(s, e) { EveryEmitWaits(c, s, e); }
        case NoSlot(e) => if AtPair(s, e) { EveryEmitWaits(c, s, e); }
        case Spill(e) => if AtPair(s, e) { EveryEmitWaits(c, s, e); }
        case EmitReturns(e) => if e < |s.emits| && s.emits[e].live { EveryEmitWaits(c, s, e); }
        case LeaveQueue(p) => if p < |s.pairs| { EveryPairWaits(c, s, p); }
        case Start(p) => if p < |s.pairs| { EveryPairWaits(c, s, p); }
        case Finish(p) => if p < |s.pairs| { EveryPairWaits(c, s, p); }
        case FreeSlot(p) => if p < |s.pairs| { EveryPairWaits(c, s, p); }
        case Release(p) => if p < |s.pairs| { EveryPairWaits(c, s, p); }
        case _ =>
      }
    }
    assert s.pairs[0].phase == WaitingPhase(c, c.maxConcurrent, 0);
  }

  /** With any limits: every slot's handler emits with a foreign context while the queue is full, and
      all of them wait for room that only their own slots could free. */
  lemma ForeignContextCanDeadlock(c: Config) returns (actions: seq<Action>)
    requires c.overflow.Block? && c.maxConcurrent > 0 && c.queueSize > 0
    ensures Runs(c, EMPTY, actions)
    ensures var s := After(c, EMPTY, actions); Stuck(c, s) && !AllEnded(s)
  {
    var s := AllWait(c, c.maxConcurrent);
    WaitingIsStuck(c, s);
    actions :| Runs(c, EMPTY, actions) && After(c, EMPTY, actions) == s;
  }

  /** Whatever contexts its handlers emit with, the bus never gets stuck with work left. */
  ghost predicate NeverStuck(c: Config) {
    forall actions | Runs(c, EMPTY, actions) ::
      Stuck(c, After(c, EMPTY, actions)) ==> AllEnded(After(c, EMPTY, actions))
  }

  /** Exactly when handlers may emit with any context: whatever limits are asked for, the bus is free
      of this deadlock if and only if its overflow policy does not block. */
  lemma AnyContextIsSafeExactly(maxConcurrent: int, queueSize: int, overflow: Overflow)
    ensures NeverStuck(NewConfig(maxConcurrent, queueSize, overflow)) <==> !overflow.Block?
  {
    var c := NewConfig(maxConcurrent, queueSize, overflow);
    if overflow.Block? {
      var actions := ForeignContextCanDeadlock(c);
    } else {
      forall actions | Runs(c, EMPTY, actions)
        ensures Stuck(c, After(c, EMPTY, actions)) ==> AllEnded(After(c, EMPTY, actions))
      {
        NoSelfEmitDeadlock(c, actions);
      }
    }
  }
}
