/** The per-handler circuit breaker (invoker/circuit-breaker.go). Admission and completion of a
    call are separate critical sections, so any number of calls may overlap between them. */
module Breaker {
  import opened Base

  datatype State = Closed | Open | HalfOpen
  datatype Token = Token(gen: nat, probe: bool)
  datatype Outcome = Success | Failed | Neutral
  datatype Reason = FailureThreshold | OpenTimeoutElapsed | ProbeSucceeded | ProbeFailed

  datatype Config = Config(failureThreshold: int, successThreshold: int, openTimeout: int)

  datatype Transition = Transition(from: State, to: State, reason: Reason, failures: int, at: int, seqNo: nat)

  datatype Cell = Cell(
    state: State, failures: int, successes: int, openedAt: int,
    gen: nat, seqNo: nat, probing: bool, probeAt: int)

  const FRESH := Cell(Closed, 0, 0, 0, 0, 0, false, 0)

  // ---------- the critical sections ----------

  function Move(b: Cell, to: State, reason: Reason, now: int): (Cell, Option<Transition>) {
    (b.(state := to, gen := b.gen + 1, seqNo := b.seqNo + 1),
     Some(Transition(b.state, to, reason, b.failures, now, b.seqNo + 1)))
  }

  datatype Admission = Admission(cell: Cell, token: Option<Token>, change: Option<Transition>)

  function AdmitStep(c: Config, b: Cell, now: int): Admission {
    match b.state
    case Open =>
      if now - b.openedAt < c.openTimeout then Admission(b, None, None)
      else
        var (m, tr) := Move(b.(successes := 0), HalfOpen, OpenTimeoutElapsed, now);
        Admission(m.(probing := true, probeAt := now), Some(Token(m.gen, true)), tr)
    case HalfOpen =>
      if !b.probing then
        Admission(b.(probing := true, probeAt := now), Some(Token(b.gen, true)), None)
      else if c.openTimeout > 0 && now - b.probeAt >= c.openTimeout then
        Admission(b.(gen := b.gen + 1, probeAt := now), Some(Token(b.gen + 1, true)), None)
      else Admission(b, None, None)
    case Closed => Admission(b, Some(Token(b.gen, false)), None)
  }

  function RecordStep(c: Config, b: Cell, tok: Token, out: Outcome, now: int): (Cell, Option<Transition>) {
    if tok.gen != b.gen then (b, None)
    else match b.state
      case Open => (b, None)
      case Closed =>
        (match out
         case Neutral => (b, None)
         case Success => (b.(failures := 0), None)
         case Failed =>
           if b.failures + 1 >= c.failureThreshold then
             Move(b.(failures := b.failures + 1, openedAt := now), Open, FailureThreshold, now)
           else (b.(failures := b.failures + 1), None))
      case HalfOpen =>
        if !tok.probe then (b, None)
        else
          var f := b.(probing := false);
          (match out
           case Neutral => (f, None)
           case Failed => Move(f.(openedAt := now), Open, ProbeFailed, now)
           case Success =>
             if b.successes + 1 >= c.successThreshold then
               Move(f.(failures := 0, successes := 0), Closed, ProbeSucceeded, now)
             else (f.(successes := b.successes + 1), None))
  }

  class HandlerBreaker {
    var state: State
    var failures: int
    var successes: int
    var openedAt: int
    var gen: nat
    var seqNo: nat
    var probing: bool
    var probeAt: int

    function Value(): Cell
      reads this
    {
      Cell(state, failures, successes, openedAt, gen, seqNo, probing, probeAt)
    }

    constructor ()
      ensures Value() == FRESH
    {
      state, failures, successes, openedAt := Closed, 0, 0, 0;
      gen, seqNo, probing, probeAt := 0, 0, false, 0;
    }

    method MoveTo(to: State, reason: Reason, now: int) returns (tr: Option<Transition>)
      modifies this
      ensures (Value(), tr) == Move(old(Value()), to, reason, now)
    {
      tr := Some(Transition(state, to, reason, failures, now, seqNo + 1));
      state := to;
      gen := gen + 1;
      seqNo := seqNo + 1;
    }

    method Admit(c: Config, now: int) returns (tok: Option<Token>, tr: Option<Transition>)
      modifies this
      ensures Admission(Value(), tok, tr) == AdmitStep(c, old(Value()), now)
    {
      tok, tr := None, None;
      match state {
        case Open =>
          if now - openedAt < c.openTimeout {
            return;
          }
          successes := 0;
          tr := MoveTo(HalfOpen, OpenTimeoutElapsed, now);
          probing := true;
          probeAt := now;
          tok := Some(Token(gen, true));
        case HalfOpen =>
          if probing {
            // A probe that outlived its lease is superseded.
            if c.openTimeout > 0 && now - probeAt >= c.openTimeout {
              gen := gen + 1;
              probeAt := now;
              tok := Some(Token(gen, true));
            }
            return;
          }
          probing := true;
          probeAt := now;
          tok := Some(Token(gen, true));
        case Closed =>
          tok := Some(Token(gen, false));
      }
    }

    method Record(c: Config, tok: Token, out: Outcome, now: int) returns (tr: Option<Transition>)
      modifies this
      ensures (Value(), tr) == RecordStep(c, old(Value()), tok, out, now)
    {
      tr := None;
      if tok.gen != gen {
        return;
      }
      if state == Closed {
        if out == Failed {
          failures := failures + 1;
          if failures >= c.failureThreshold {
            openedAt := now;
            tr := MoveTo(Open, FailureThreshold, now);
          }
        } else if out == Success {
          failures := 0;
        }
      } else if state == HalfOpen {
        if !tok.probe {
          return;
        }
        probing := false;
        if out == Failed {
          openedAt := now;
          tr := MoveTo(Open, ProbeFailed, now);
        } else if out == Success {
          successes := successes + 1;
          if successes >= c.successThreshold {
            failures := 0;
            successes := 0;
            tr := MoveTo(Closed, ProbeSucceeded, now);
          }
        }
      }
    }
  }

  // ---------- every overlap of calls, with its history ----------

  /** What an onlooker writes down: completions that are neither stale nor neutral, changes of
      state, and a probe superseded after its lease. */
  datatype Event = Completed(ok: bool) | Probed(ok: bool) | Turned(to: State) | Superseded

  /** A call that was admitted and has not completed, when it was, and the length of the history
      then. */
  datatype Call = Call(token: Token, at: int, born: nat)

  datatype World = World(cell: Cell, calls: nat, out: map<nat, Call>, log: seq<Event>, changes: seq<Transition>)

  const START := World(FRESH, 0, map[], [], [])

  datatype Action = Admit(now: int) | Record(call: nat, outcome: Outcome, now: int)

  predicate Enabled(w: World, a: Action) {
    a.Record? ==> a.call in w.out
  }

  function Noted(tr: Option<Transition>): seq<Event> {
    if tr.Some? then [Turned(tr.value.to)] else []
  }

  function Listed(tr: Option<Transition>): seq<Transition> {
    if tr.Some? then [tr.value] else []
  }

  predicate Stale(w: World, call: nat)
    requires call in w.out
  {
    w.out[call].token.gen != w.cell.gen
  }

  /** What the step adds to the history. */
  function Seen(c: Config, w: World, a: Action): seq<Event>
    requires Enabled(w, a)
  {
    match a
    case Admit(now) =>
      var r := AdmitStep(c, w.cell, now);
      if r.change.None? && r.cell.gen != w.cell.gen then [Superseded] else Noted(r.change)
    case Record(call, outcome, now) =>
      var tr := RecordStep(c, w.cell, w.out[call].token, outcome, now).1;
      (if Stale(w, call) || outcome == Neutral || w.cell.state == Open then []
       else if w.cell.state == Closed then [Completed(outcome == Success)]
       else [Probed(outcome == Success)])
      + Noted(tr)
  }

  function Step(c: Config, w: World, a: Action): World
    requires Enabled(w, a)
  {
    var log := w.log + Seen(c, w, a);
    match a
    case Admit(now) =>
      var r := AdmitStep(c, w.cell, now);
      if r.token.None? then w.(cell := r.cell, log := log)
      else
        World(r.cell, w.calls + 1, w.out[w.calls := Call(r.token.value, now, |log|)], log,
              w.changes + Listed(r.change))
    case Record(call, outcome, now) =>
      var (b, tr) := RecordStep(c, w.cell, w.out[call].token, outcome, now);
      World(b, w.calls, w.out - {call}, log, w.changes + Listed(tr))
  }

  ghost predicate Runs(c: Config, w: World, actions: seq<Action>)
    decreases |actions|
  {
    actions == [] || (Enabled(w, actions[0]) && Runs(c, Step(c, w, actions[0]), actions[1..]))
  }

  ghost function After(c: Config, w: World, actions: seq<Action>): World
    requires Runs(c, w, actions)
    decreases |actions|
  {
    if actions == [] then w else After(c, Step(c, w, actions[0]), actions[1..])
  }

  // ---------- what the history says ----------

  function Init<T>(s: seq<T>): seq<T>
    requires s != []
  {
    s[..|s| - 1]
  }

  function Last<T>(s: seq<T>): T
    requires s != []
  {
    s[|s| - 1]
  }

  /** The state the last change of state led to. */
  function StateOf(log: seq<Event>): State {
    if log == [] then Closed
    else if Last(log).Turned? then Last(log).to
    else StateOf(Init(log))
  }

  /** The counted completions of closed calls since the breaker last closed, oldest first. */
  function Completions(log: seq<Event>): seq<bool> {
    if log == [] || Last(log) == Turned(Closed) then []
    else if Last(log).Completed? then Completions(Init(log)) + [Last(log).ok]
    else Completions(Init(log))
  }

  /** The results of the probes since the breaker last turned half-open. */
  function Probes(log: seq<Event>): seq<bool> {
    if log == [] || Last(log) == Turned(HalfOpen) then []
    else if Last(log).Probed? then Probes(Init(log)) + [Last(log).ok]
    else Probes(Init(log))
  }

  /** The length of the current run of failures. */
  function FailureRun(s: seq<bool>): nat {
    if s == [] || Last(s) then 0 else FailureRun(Init(s)) + 1
  }

  /** The run is the maximal all-failure suffix. */
  lemma {:induction false} RunIsMaximal(s: seq<bool>)
    ensures var k := FailureRun(s);
            && k <= |s|
            && (forall i | |s| - k <= i < |s| :: !s[i])
            && (k < |s| ==> s[|s| - k - 1])
  {
    if s != [] && !Last(s) {
      RunIsMaximal(Init(s));
    }
  }

  /** Changes of state and superseded probes. */
  function Epochs(log: seq<Event>): nat {
    if log == [] then 0
    else Epochs(Init(log)) + (if Last(log).Turned? || Last(log).Superseded? then 1 else 0)
  }

  function AtLeastOne(n: int): (m: int)
    ensures m >= 1 && m >= n && (m == 1 || m == n)
  {
    if n < 1 then 1 else n
  }

  lemma Push(log: seq<Event>, e: Event)
    ensures StateOf(log + [e]) == if e.Turned? then e.to else StateOf(log)
    ensures Completions(log + [e]) == if e == Turned(Closed) then []
            else if e.Completed? then Completions(log) + [e.ok] else Completions(log)
    ensures Probes(log + [e]) == if e == Turned(HalfOpen) then []
            else if e.Probed? then Probes(log) + [e.ok] else Probes(log)
    ensures Epochs(log + [e]) == Epochs(log) + if e.Turned? || e.Superseded? then 1 else 0
  {
    assert Init(log + [e]) == log && Last(log + [e]) == e;
  }

  lemma RunPush(s: seq<bool>, ok: bool)
    ensures FailureRun(s + [ok]) == if ok then 0 else FailureRun(s) + 1
  {
    assert Init(s + [ok]) == s && Last(s + [ok]) == ok;
  }

  // ---------- the invariant ----------

  predicate Current(w: World, call: nat) {
    call in w.out && w.out[call].token.gen == w.cell.gen
  }

  /** The safety part: tokens and the probe slot. */
  ghost predicate Slots(w: World) {
    && (forall k | k in w.out :: k < w.calls && w.out[k].token.gen <= w.cell.gen)
    && (w.cell.probing ==> w.cell.state == HalfOpen)
    && (w.cell.state == Open ==> forall k :: !Current(w, k))
    && (w.cell.state == Closed ==> forall k | Current(w, k) :: !w.out[k].token.probe)
    && (w.cell.state == HalfOpen && !w.cell.probing ==> forall k :: !Current(w, k))
    && (w.cell.probing ==>
          && (exists k :: Current(w, k))
          && (forall k | Current(w, k) :: w.out[k].token.probe)
          && (forall j, k | Current(w, j) && Current(w, k) :: j == k))
  }

  /** The refinement part: the cell is a function of the history. */
  ghost predicate Explained(c: Config, b: Cell, log: seq<Event>) {
    && b.state == StateOf(log)
    && b.failures == FailureRun(Completions(log))
    && (b.state == HalfOpen ==>
          && b.successes == |Probes(log)| < AtLeastOne(c.successThreshold)
          && AllOk(Probes(log)))
    && (b.state == Closed ==> b.failures < AtLeastOne(c.failureThreshold))
    && b.gen == Epochs(log)
  }

  ghost predicate AllOk(s: seq<bool>) {
    forall i | 0 <= i < |s| :: s[i]
  }

  ghost predicate Born(w: World) {
    forall k | k in w.out :: w.out[k].born <= |w.log| && w.out[k].token.gen == Epochs(w.log[..w.out[k].born])
  }

  function StateBefore(changes: seq<Transition>, n: nat): State
    requires n <= |changes|
  {
    if n == 0 then Closed else changes[n - 1].to
  }

  /** Seq numbers the changes of state 1, 2, 3, ... and the last one is the current state. */
  ghost predicate Numbered(w: World) {
    && w.cell.seqNo == |w.changes|
    && (forall i | 0 <= i < |w.changes| :: w.changes[i].seqNo == i + 1)
    && w.cell.state == StateBefore(w.changes, |w.changes|)
    && (forall i | 0 <= i < |w.changes| :: w.changes[i].from == StateBefore(w.changes, i))
  }

  /** The two clocks of the cell: when it last opened, and when its probe was admitted. */
  ghost predicate Timed(w: World) {
    && (w.cell.state == Open ==> w.changes != [] && w.cell.openedAt == Last(w.changes).at)
    && (w.cell.probing ==> forall k | Current(w, k) :: w.out[k].at == w.cell.probeAt)
  }

  ghost predicate Inv(c: Config, w: World) {
    Slots(w) && Explained(c, w.cell, w.log) && Born(w) && Numbered(w) && Timed(w)
  }

  lemma SlotsAdmit(c: Config, w: World, a: Action)
    requires Slots(w) && a.Admit?
    ensures Slots(Step(c, w, a))
  {
    var v := Step(c, w, a);
    forall k | Current(v, k)
      ensures k in w.out ==> v.out[k] == w.out[k] && v.cell.gen == w.cell.gen && Current(w, k)
    {
    }
    if v.calls > w.calls {
      assert Current(v, w.calls);
    } else {
      assert v.cell == w.cell && v.out == w.out;
      assert forall k :: Current(v, k) <==> Current(w, k);
    }
  }

  lemma SlotsRecord(c: Config, w: World, a: Action)
    requires Slots(w) && a.Record? && Enabled(w, a)
    ensures Slots(Step(c, w, a))
  {
    var v := Step(c, w, a);
    forall k | Current(v, k)
      ensures v.cell.gen == w.cell.gen && Current(w, k) && k != a.call && v.out[k] == w.out[k]
    {
    }
    if Current(w, a.call) && w.cell.state == HalfOpen {
      assert forall k :: !Current(v, k);
    } else if v.cell.probing {
      var k :| Current(w, k);
      assert Current(v, k);
    }
  }

  lemma SlotsStep(c: Config, w: World, a: Action)
    requires Slots(w) && Enabled(w, a)
    ensures Slots(Step(c, w, a))
  {
    if a.Admit? {
      SlotsAdmit(c, w, a);
    } else {
      SlotsRecord(c, w, a);
    }
  }

  lemma ExplainedAdmit(c: Config, b: Cell, log: seq<Event>, now: int)
    requires Explained(c, b, log)
    ensures var r := AdmitStep(c, b, now);
            Explained(c, r.cell, log + if r.change.None? && r.cell.gen != b.gen then [Superseded] else Noted(r.change))
  {
    hide StateOf, Completions, Probes, Epochs, FailureRun;
    assert log + [] == log;
    Push(log, Superseded);
    Push(log, Turned(HalfOpen));
  }

  /** A completion that is not stale never finds the breaker open, and finds it half-open only
      as the probe in flight. */
  lemma CurrentCall(w: World, call: nat)
    requires Slots(w) && Current(w, call)
    ensures w.cell.state != Open
    ensures w.cell.state == HalfOpen <==> w.out[call].token.probe
    ensures w.cell.state == HalfOpen ==> w.cell.probing
  {
  }

  lemma ExplainedClosed(c: Config, b: Cell, log: seq<Event>, tok: Token, out: Outcome, now: int)
    requires Explained(c, b, log) && b.state == Closed && tok.gen == b.gen && out != Neutral
    ensures var (r, tr) := RecordStep(c, b, tok, out, now);
            Explained(c, r, log + ([Completed(out == Success)] + Noted(tr)))
  {
    hide StateOf, Completions, Probes, Epochs, FailureRun, AllOk;
    var ok := out == Success;
    var next := log + [Completed(ok)];
    Push(log, Completed(ok));
    RunPush(Completions(log), ok);
    if !ok && b.failures + 1 >= c.failureThreshold {
      assert log + ([Completed(ok)] + [Turned(Open)]) == next + [Turned(Open)];
      Push(next, Turned(Open));
    } else {
      assert log + ([Completed(ok)] + []) == next;
    }
  }

  lemma ExplainedHalfOpen(c: Config, b: Cell, log: seq<Event>, tok: Token, out: Outcome, now: int)
    requires Explained(c, b, log) && b.state == HalfOpen && tok.gen == b.gen && tok.probe && out != Neutral
    ensures var (r, tr) := RecordStep(c, b, tok, out, now);
            Explained(c, r, log + ([Probed(out == Success)] + Noted(tr)))
  {
    hide StateOf, Completions, Probes, Epochs;
    var ok := out == Success;
    var next := log + [Probed(ok)];
    Push(log, Probed(ok));
    if ok && b.successes + 1 < c.successThreshold {
      assert log + ([Probed(ok)] + []) == next;
    } else {
      var to := if ok then Closed else Open;
      assert log + ([Probed(ok)] + [Turned(to)]) == next + [Turned(to)];
      Push(next, Turned(to));
    }
  }

  lemma ExplainedRecord(c: Config, w: World, a: Action)
    requires Slots(w) && Explained(c, w.cell, w.log) && a.Record? && Enabled(w, a)
    ensures Explained(c, Step(c, w, a).cell, Step(c, w, a).log)
  {
    if Stale(w, a.call) || a.outcome == Neutral {
      assert w.log + Seen(c, w, a) == w.log;
    }
    if !Stale(w, a.call) {
      CurrentCall(w, a.call);
      if a.outcome != Neutral {
        if w.cell.state == Closed {
          ExplainedClosed(c, w.cell, w.log, w.out[a.call].token, a.outcome, a.now);
        } else {
          ExplainedHalfOpen(c, w.cell, w.log, w.out[a.call].token, a.outcome, a.now);
        }
      }
    }
  }

  lemma BornStays(w: World, v: World, k: nat)
    requires Born(w) && k in w.out && k in v.out && v.out[k] == w.out[k] && w.log <= v.log
    ensures v.out[k].born <= |v.log| && v.out[k].token.gen == Epochs(v.log[..v.out[k].born])
  {
    hide Epochs;
    assert v.log[..v.out[k].born] == w.log[..v.out[k].born];
  }

  lemma BornStep(c: Config, w: World, a: Action)
    requires Born(w) && Enabled(w, a) && Step(c, w, a).cell.gen == Epochs(Step(c, w, a).log)
    requires Slots(w)
    ensures Born(Step(c, w, a))
  {
    hide Epochs, RecordStep, Current;
    var v := Step(c, w, a);
    forall k | k in v.out
      ensures v.out[k].born <= |v.log| && v.out[k].token.gen == Epochs(v.log[..v.out[k].born])
    {
      if k in w.out {
        BornStays(w, v, k);
      } else {
        assert v.log[..|v.log|] == v.log;
      }
    }
  }

  lemma LastChange(w: World, i: nat)
    requires Numbered(w) && i < |w.changes| && w.changes[i].seqNo >= w.cell.seqNo
    ensures w.changes[i].to == w.cell.state
  {
    assert i == |w.changes| - 1;
  }

  lemma NumberedGrow(w: World, v: World, t: Transition)
    requires Numbered(w) && v.changes == w.changes + [t]
    requires t.from == w.cell.state && t.to == v.cell.state && t.seqNo == v.cell.seqNo == w.cell.seqNo + 1
    ensures Numbered(v)
  {
    hide StateBefore;
    forall i: nat | i <= |w.changes| ensures StateBefore(v.changes, i) == StateBefore(w.changes, i) {
      BeforeStays(w.changes, t, i);
    }
    LastIsBefore(w.changes, t);
  }

  lemma BeforeStays(changes: seq<Transition>, t: Transition, i: nat)
    requires i <= |changes|
    ensures StateBefore(changes + [t], i) == StateBefore(changes, i)
  {
  }

  lemma LastIsBefore(changes: seq<Transition>, t: Transition)
    ensures StateBefore(changes + [t], |changes| + 1) == t.to
  {
  }

  lemma NumberedStep(c: Config, w: World, a: Action)
    requires Numbered(w) && Enabled(w, a)
    ensures Numbered(Step(c, w, a))
  {
    var v := Step(c, w, a);
    var tr := if a.Admit? then AdmitStep(c, w.cell, a.now).change
              else RecordStep(c, w.cell, w.out[a.call].token, a.outcome, a.now).1;
    if tr.Some? {
      NumberedGrow(w, v, tr.value);
    } else {
      assert w.changes + [] == w.changes;
      assert v.changes == w.changes;
    }
  }

  lemma TimedAdmit(c: Config, w: World, a: Action)
    requires Slots(w) && Timed(w) && a.Admit?
    ensures Timed(Step(c, w, a))
  {
    var v := Step(c, w, a);
    forall k | v.cell.probing && Current(v, k) ensures v.out[k].at == v.cell.probeAt {
      if k in w.out && v.out[k] == w.out[k] && v.cell.gen == w.cell.gen {
        assert Current(w, k);
      }
    }
  }

  lemma TimedRecord(c: Config, w: World, a: Action)
    requires Slots(w) && Timed(w) && a.Record? && Enabled(w, a)
    ensures Timed(Step(c, w, a))
  {
    var v := Step(c, w, a);
    forall k | v.cell.probing && Current(v, k) ensures v.out[k].at == v.cell.probeAt {
      if v.cell.gen == w.cell.gen {
        assert Current(w, k);
      }
    }
  }

  lemma ExplainedStep(c: Config, w: World, a: Action)
    requires Slots(w) && Explained(c, w.cell, w.log) && Enabled(w, a)
    ensures Explained(c, Step(c, w, a).cell, Step(c, w, a).log)
  {
    if a.Admit? {
      ExplainedAdmit(c, w.cell, w.log, a.now);
    } else {
      ExplainedRecord(c, w, a);
    }
  }

  lemma InvStep(c: Config, w: World, a: Action)
    requires Inv(c, w) && Enabled(w, a)
    ensures Inv(c, Step(c, w, a))
  {
    hide Step, Slots, Born, Numbered, Timed;
    SlotsStep(c, w, a);
    ExplainedStep(c, w, a);
    BornStep(c, w, a);
    NumberedStep(c, w, a);
    if a.Admit? {
      TimedAdmit(c, w, a);
    } else {
      TimedRecord(c, w, a);
    }
  }

  lemma {:induction false} InvRun(c: Config, w: World, actions: seq<Action>)
    requires Inv(c, w) && Runs(c, w, actions)
    ensures Inv(c, After(c, w, actions))
    decreases |actions|
  {
    if actions != [] {
      InvStep(c, w, actions[0]);
      InvRun(c, Step(c, w, actions[0]), actions[1..]);
    }
  }

  // ---------- what every overlap guarantees ----------

  lemma InvReached(c: Config, actions: seq<Action>)
    requires Runs(c, START, actions)
    ensures Inv(c, After(c, START, actions))
  {
    InvRun(c, START, actions);
  }

  /** One probe at a time: half-open with a probe in flight, exactly one uncompleted call holds
      the current generation; half-open without one, or open, none does. */
  lemma SingleProbe(c: Config, actions: seq<Action>)
    requires Runs(c, START, actions)
    ensures var w := After(c, START, actions);
            && (w.cell.probing ==> w.cell.state == HalfOpen)
            && (w.cell.probing ==> exists k :: Current(w, k) && forall j | Current(w, j) :: j == k)
            && (w.cell.state == HalfOpen && !w.cell.probing ==> forall k :: !Current(w, k))
            && (w.cell.state == Open ==> forall k :: !Current(w, k))
  {
    InvReached(c, actions);
    var w := After(c, START, actions);
    if w.cell.probing {
      var k :| Current(w, k);
      assert forall j | Current(w, j) :: j == k;
    }
  }

  /** Recording an uncompleted call in open changes nothing, and in half-open only the probe in
      flight can change anything. */
  lemma OnlyTheProbeCounts(c: Config, actions: seq<Action>, call: nat, out: Outcome, now: int)
    requires Runs(c, START, actions) && call in After(c, START, actions).out
    ensures var w := After(c, START, actions);
            var next := RecordStep(c, w.cell, w.out[call].token, out, now);
            && (w.cell.state == Open ==> next == (w.cell, None))
            && (w.cell.state == HalfOpen && next != (w.cell, None) ==>
                  w.cell.probing && Current(w, call) && w.out[call].token.probe)
  {
    InvReached(c, actions);
    var w := After(c, START, actions);
    if Current(w, call) {
      CurrentCall(w, call);
    }
  }

  /** A completion is stale exactly when, since the call was admitted, the breaker changed state
      or a probe was superseded. */
  lemma StaleMeansOvertaken(c: Config, actions: seq<Action>, call: nat)
    requires Runs(c, START, actions) && call in After(c, START, actions).out
    ensures var w := After(c, START, actions);
            w.out[call].born <= |w.log|
            && (Stale(w, call) <==>
                  (exists i :: w.out[call].born <= i < |w.log| && (w.log[i].Turned? || w.log[i].Superseded?)))
  {
    InvReached(c, actions);
    var w := After(c, START, actions);
    EpochsSplit(w.log, w.out[call].born);
  }

  lemma {:induction false} EpochsSplit(log: seq<Event>, n: nat)
    requires n <= |log|
    ensures Epochs(log[..n]) <= Epochs(log)
    ensures Epochs(log[..n]) < Epochs(log)
            <==> (exists i :: n <= i < |log| && (log[i].Turned? || log[i].Superseded?))
  {
    if n == |log| {
      assert log[..n] == log;
    } else {
      assert Init(log)[..n] == log[..n];
      EpochsSplit(Init(log), n);
      if Epochs(Init(log)) < Epochs(log) {
        assert log[|log| - 1].Turned? || log[|log| - 1].Superseded?;
      }
      if exists i :: n <= i < |Init(log)| && (Init(log)[i].Turned? || Init(log)[i].Superseded?) {
        var i :| n <= i < |Init(log)| && (Init(log)[i].Turned? || Init(log)[i].Superseded?);
        assert log[i].Turned? || log[i].Superseded?;
      }
    }
  }

  /** The breaker refines its history. The state is the last recorded change; the failure count
      is, in every state, the current run of failures among the closed completions; in half-open
      every recorded probe since turning half-open succeeded and the success count is their
      number. */
  lemma StateRefinesHistory(c: Config, actions: seq<Action>)
    requires Runs(c, START, actions)
    ensures var w := After(c, START, actions);
            && w.cell.state == StateOf(w.log)
            && w.cell.failures == FailureRun(Completions(w.log))
            && (w.cell.state == HalfOpen ==>
                  w.cell.successes == |Probes(w.log)| && forall i | 0 <= i < |Probes(w.log)| :: Probes(w.log)[i])
  {
    InvReached(c, actions);
  }

  /** When the history demands a change of state on a completion that is not stale. */
  function Demanded(c: Config, log: seq<Event>, out: Outcome): State {
    match StateOf(log)
    case Closed =>
      if out == Failed && FailureRun(Completions(log) + [false]) == AtLeastOne(c.failureThreshold) then Open else Closed
    case HalfOpen =>
      if out == Failed then Open
      else if out == Success && |Probes(log) + [true]| == AtLeastOne(c.successThreshold) then Closed
      else HalfOpen
    case Open => Open
  }

  /** It opens exactly when the run of failures reaches max(FailureThreshold, 1), and closes
      exactly after max(SuccessThreshold, 1) probe successes with no probe failure in between. */
  lemma ChangesExactlyOnThresholds(c: Config, actions: seq<Action>, call: nat, out: Outcome, now: int)
    requires Runs(c, START, actions) && Current(After(c, START, actions), call)
    ensures var w := After(c, START, actions);
            RecordStep(c, w.cell, w.out[call].token, out, now).0.state == Demanded(c, w.log, out)
  {
    InvReached(c, actions);
    ChangeIsDemanded(c, After(c, START, actions), call, out, now);
  }

  lemma ChangeIsDemanded(c: Config, w: World, call: nat, out: Outcome, now: int)
    requires Slots(w) && Explained(c, w.cell, w.log) && Current(w, call)
    ensures RecordStep(c, w.cell, w.out[call].token, out, now).0.state == Demanded(c, w.log, out)
  {
    CurrentCall(w, call);
    RunPush(Completions(w.log), false);
  }

  // ---------- exactly which calls are admitted ----------

  /** What a call admitted now finds, by the history: the breaker closed; or open, and OpenTimeout over
      since it opened; or half-open with no probe outstanding but such whose positive lease is over. */
  ghost predicate Admits(c: Config, w: World, now: int) {
    match StateOf(w.log)
    case Closed => true
    case Open => w.changes != [] && now - Last(w.changes).at >= c.openTimeout
    case HalfOpen =>
      forall k | Current(w, k) :: c.openTimeout > 0 && now - w.out[k].at >= c.openTimeout
  }

  /** The admission law, in every overlap of calls. An admitted call gets the current generation, and
      is the probe exactly when the breaker was not closed; a refused one changes nothing. */
  lemma AdmittedExactly(c: Config, actions: seq<Action>, now: int)
    requires Runs(c, START, actions)
    ensures var w := After(c, START, actions);
            var v := Step(c, w, Admit(now));
            if Admits(c, w, now) then
              && v.calls == w.calls + 1 && Current(v, w.calls) && v.out[w.calls].at == now
              && v.out[w.calls].token.probe == (StateOf(w.log) != Closed)
              && v.cell.state == (if StateOf(w.log) == Closed then Closed else HalfOpen)
            else v == w
  {
    InvReached(c, actions);
    AdmissionIs(c, After(c, START, actions), now);
  }

  lemma AdmissionIs(c: Config, w: World, now: int)
    requires Slots(w) && Timed(w) && w.cell.state == StateOf(w.log)
    ensures var v := Step(c, w, Admit(now));
            if Admits(c, w, now) then
              && v.calls == w.calls + 1 && Current(v, w.calls) && v.out[w.calls].at == now
              && v.out[w.calls].token.probe == (StateOf(w.log) != Closed)
              && v.cell.state == (if StateOf(w.log) == Closed then Closed else HalfOpen)
            else v == w
  {
    hide StateOf;
    if w.cell.probing {
      var k :| Current(w, k);
      assert w.out[k].at == w.cell.probeAt;
    }
    assert w.log + [] == w.log;
  }

  /** What each change of state says: its reason, when it was made, and the failures that led to it. */
  predicate Named(t: Transition) {
    match t.reason
    case FailureThreshold => t.from == Closed && t.to == Open
    case OpenTimeoutElapsed => t.from == Open && t.to == HalfOpen
    case ProbeSucceeded => t.from == HalfOpen && t.to == Closed
    case ProbeFailed => t.from == HalfOpen && t.to == Open
  }

  /** In every overlap a step makes at most one change of state; it says which one it is, at the time
      of the step, with the failure run the history then shows. */
  lemma ChangesAreNamed(c: Config, actions: seq<Action>, a: Action)
    requires Runs(c, START, actions) && Enabled(After(c, START, actions), a)
    ensures var w := After(c, START, actions);
            var v := Step(c, w, a);
            v.changes == w.changes
            || (|v.changes| == |w.changes| + 1 && v.changes[..|w.changes|] == w.changes
                && var t := Last(v.changes);
                   && Named(t) && t.at == a.now
                   && t.failures == FailureRun(Completions(v.log))
                   && t.from == StateOf(w.log) && t.to == StateOf(v.log))
  {
    InvReached(c, actions);
    var w := After(c, START, actions);
    InvStep(c, w, a);
    ChangeIs(c, w, a);
  }

  lemma ChangeIs(c: Config, w: World, a: Action)
    requires Enabled(w, a)
    ensures var v := Step(c, w, a);
            v.changes == w.changes
            || (|v.changes| == |w.changes| + 1 && v.changes[..|w.changes|] == w.changes
                && var t := Last(v.changes);
                   && Named(t) && t.at == a.now
                   && t.failures == v.cell.failures && t.from == w.cell.state && t.to == v.cell.state)
  {
    hide StateOf, Completions, FailureRun;
    assert w.changes + [] == w.changes;
  }

  // ---------- it does open, and it does recover ----------

  /** n calls admitted before any of them completes. */
  function Burst(n: nat): seq<Action> {
    seq(n, i => Admit(0))
  }

  /** The calls from..to fail. */
  function Failures(from: nat, n: nat, now: int): seq<Action>
    decreases n
  {
    if n == 0 then [] else [Record(from, Failed, now)] + Failures(from + 1, n - 1, now)
  }

  /** The calls from first on of a closed breaker are in flight. */
  ghost predicate InFlight(w: World, first: nat) {
    w.cell.state == Closed && first <= w.calls && forall i | first <= i < w.calls :: Current(w, i)
  }

  lemma AdmitInFlight(c: Config, w: World, first: nat)
    requires InFlight(w, first)
    ensures var v := Step(c, w, Admit(0)); v.cell == w.cell && v.calls == w.calls + 1 && InFlight(v, first)
  {
    var v := Step(c, w, Admit(0));
    forall i | first <= i < v.calls ensures Current(v, i) {
      if i < w.calls {
        assert Current(w, i);
      }
    }
  }

  lemma {:induction false} BurstAdmits(c: Config, w: World, first: nat, n: nat)
    requires InFlight(w, first)
    ensures Runs(c, w, Burst(n))
    ensures var v := After(c, w, Burst(n)); v.cell == w.cell && v.calls == w.calls + n && InFlight(v, first)
    decreases n
  {
    hide InFlight, Step;
    if n > 0 {
      AdmitInFlight(c, w, first);
      assert Burst(n)[0] == Admit(0) && Burst(n)[1..] == Burst(n - 1);
      BurstAdmits(c, Step(c, w, Admit(0)), first, n - 1);
    }
  }

  lemma FailureCounts(c: Config, w: World, first: nat, now: int)
    requires InFlight(w, first) && first < w.calls && w.cell.failures >= 0
    requires w.cell.failures < AtLeastOne(c.failureThreshold)
    ensures Enabled(w, Record(first, Failed, now))
    ensures var v := Step(c, w, Record(first, Failed, now));
            && v.calls == w.calls
            && (if w.cell.failures + 1 < AtLeastOne(c.failureThreshold)
                then InFlight(v, first + 1) && v.cell.failures == w.cell.failures + 1 else v.cell.state == Open)
  {
    assert Current(w, first);
    var v := Step(c, w, Record(first, Failed, now));
    forall i | first < i < w.calls && v.cell.gen == w.cell.gen ensures Current(v, i) {
      assert Current(w, i);
    }
  }

  /** Fewer failures than the threshold leave it closed, and the last one opens it. */
  lemma {:induction false} FailuresOpen(c: Config, w: World, first: nat, n: nat, now: int)
    requires n > 0 && InFlight(w, first) && w.calls == first + n
    requires w.cell.failures >= 0 && w.cell.failures + n == AtLeastOne(c.failureThreshold)
    ensures Runs(c, w, Failures(first, n, now))
    ensures After(c, w, Failures(first, n, now)).cell.state == Open
    decreases n
  {
    hide InFlight, Step, Enabled;
    FailureCounts(c, w, first, now);
    var all, rest := Failures(first, n, now), Failures(first + 1, n - 1, now);
    assert all[0] == Record(first, Failed, now) && all[1..] == rest;
    if n > 1 {
      FailuresOpen(c, Step(c, w, Record(first, Failed, now)), first + 1, n - 1, now);
    }
  }

  /** It does open: from the start, as many overlapping calls as the threshold asks for, all of them
      failing, open the breaker. */
  lemma OverlappingFailuresOpen(c: Config, now: int)
    ensures var n := AtLeastOne(c.failureThreshold);
            && Runs(c, START, Burst(n) + Failures(0, n, now))
            && After(c, START, Burst(n) + Failures(0, n, now)).cell.state == Open
  {
    hide Step, Enabled;
    var n := AtLeastOne(c.failureThreshold);
    BurstAdmits(c, START, 0, n);
    FailuresOpen(c, After(c, START, Burst(n)), 0, n, now);
    RunsConcat(c, START, Burst(n), Failures(0, n, now));
  }

  lemma {:induction false} RunsConcat(c: Config, w: World, first: seq<Action>, second: seq<Action>)
    requires Runs(c, w, first) && Runs(c, After(c, w, first), second)
    ensures Runs(c, w, first + second) && After(c, w, first + second) == After(c, After(c, w, first), second)
    decreases |first|
  {
    hide Step, Enabled;
    if first == [] {
      assert first + second == second;
    } else {
      assert (first + second)[1..] == first[1..] + second;
      RunsConcat(c, Step(c, w, first[0]), first[1..], second);
    }
  }

  /** One call after the other, each with its answer at once. */
  function OneByOne(from: nat, n: nat, out: Outcome, now: int): seq<Action>
    decreases n
  {
    if n == 0 then [] else [Admit(now), Record(from, out, now)] + OneByOne(from + 1, n - 1, out, now)
  }

  /** Call number w.calls comes, is admitted, and completes. */
  ghost predicate Answers(c: Config, w: World, u: World, out: Outcome, now: int) {
    && Enabled(Step(c, w, Admit(now)), Record(w.calls, out, now))
    && u == Step(c, Step(c, w, Admit(now)), Record(w.calls, out, now))
    && u.calls == w.calls + 1
  }

  lemma OneMore(c: Config, w: World, u: World, n: nat, out: Outcome, now: int)
    requires n > 0 && Answers(c, w, u, out, now) && Runs(c, u, OneByOne(u.calls, n - 1, out, now))
    ensures Runs(c, w, OneByOne(w.calls, n, out, now))
    ensures After(c, w, OneByOne(w.calls, n, out, now)) == After(c, u, OneByOne(u.calls, n - 1, out, now))
  {
    hide Step;
    var all, rest := OneByOne(w.calls, n, out, now), OneByOne(u.calls, n - 1, out, now);
    assert all[0] == Admit(now) && all[1..][0] == Record(w.calls, out, now) && all[1..][1..] == rest;
  }

  lemma OneFailure(c: Config, w: World, now: int) returns (u: World)
    requires w.cell.state == Closed && 0 <= w.cell.failures < AtLeastOne(c.failureThreshold)
    ensures Answers(c, w, u, Failed, now)
    ensures if w.cell.failures + 1 < AtLeastOne(c.failureThreshold)
            then u.cell.state == Closed && u.cell.failures == w.cell.failures + 1 else u.cell.state == Open
  {
    u := Step(c, Step(c, w, Admit(now)), Record(w.calls, Failed, now));
  }

  /** Consecutive failures open it as well, from any closed state by what is missing to the threshold. */
  lemma {:induction false} ConsecutiveFailuresOpen(c: Config, w: World, n: nat, now: int)
    requires w.cell.state == Closed && w.cell.failures >= 0
    requires n > 0 && w.cell.failures + n == AtLeastOne(c.failureThreshold)
    ensures Runs(c, w, OneByOne(w.calls, n, Failed, now))
    ensures After(c, w, OneByOne(w.calls, n, Failed, now)).cell.state == Open
    decreases n
  {
    hide Step, Answers;
    var u := OneFailure(c, w, now);
    if n > 1 {
      ConsecutiveFailuresOpen(c, u, n - 1, now);
    } else {
      assert Runs(c, u, []) && After(c, u, []) == u;
    }
    assert Answers(c, w, u, Failed, now);
    CallCounts(c, w, u, Failed, now);
    OneMore(c, w, u, n, Failed, now);
  }

  lemma CallCounts(c: Config, w: World, u: World, out: Outcome, now: int)
    requires Answers(c, w, u, out, now)
    ensures u.calls == w.calls + 1
  {
    hide Step;
  }

  /** The probe of an open breaker whose timeout is over, or of a half-open one without a probe,
      succeeds. */
  lemma OneSuccess(c: Config, w: World, now: int) returns (u: World)
    requires w.cell.state == HalfOpen ==> !w.cell.probing && 0 <= w.cell.successes < AtLeastOne(c.successThreshold)
    requires w.cell.state == Open ==> now - w.cell.openedAt >= c.openTimeout
    requires w.cell.state != Closed
    ensures Answers(c, w, u, Success, now)
    ensures var before := if w.cell.state == Open then 0 else w.cell.successes;
            if before + 1 < AtLeastOne(c.successThreshold)
            then u.cell.state == HalfOpen && !u.cell.probing && u.cell.successes == before + 1
            else u.cell.state == Closed
  {
    u := Step(c, Step(c, w, Admit(now)), Record(w.calls, Success, now));
  }

  /** And it does recover: from any open state, once the timeout is over, as many successful probes as
      the success threshold asks for close it; in half-open, as many as are missing. */
  lemma {:induction false} SuccessfulProbesClose(c: Config, w: World, n: nat, now: int)
    requires w.cell.state == HalfOpen ==> !w.cell.probing && w.cell.successes >= 0
    requires w.cell.state == Open ==> now - w.cell.openedAt >= c.openTimeout
    requires w.cell.state != Closed && n > 0
    requires (if w.cell.state == Open then 0 else w.cell.successes) + n == AtLeastOne(c.successThreshold)
    ensures Runs(c, w, OneByOne(w.calls, n, Success, now))
    ensures After(c, w, OneByOne(w.calls, n, Success, now)).cell.state == Closed
    decreases n
  {
    hide Step, Answers;
    var u := OneSuccess(c, w, now);
    if n > 1 {
      SuccessfulProbesClose(c, u, n - 1, now);
    } else {
      assert Runs(c, u, []) && After(c, u, []) == u;
    }
    CallCounts(c, w, u, Success, now);
    OneMore(c, w, u, n, Success, now);
  }

  // ---------- the probe lease ----------

  /** While probe k is in flight and within its lease. */
  ghost predicate Exclusive(c: Config, a: Action, k: nat, since: int) {
    match a
    case Admit(now) => c.openTimeout <= 0 || now - since < c.openTimeout
    case Record(call, _, _) => call != k
  }

  /** Before the open timeout of a breaker that opened at openedAt has passed. */
  predicate TooEarly(c: Config, a: Action, openedAt: int) {
    a.Admit? ==> a.now - openedAt < c.openTimeout
  }

  lemma OpenStays(c: Config, w: World, a: Action)
    requires Slots(w) && w.cell.state == Open && Enabled(w, a) && TooEarly(c, a, w.cell.openedAt)
    ensures var v := Step(c, w, a); v.calls == w.calls && v.cell == w.cell && v.log == w.log
  {
    if a.Record? {
      assert !Current(w, a.call);
    }
    assert Seen(c, w, a) == [] && w.log + [] == w.log;
  }

  /** An open breaker stays as it is until its timeout passes: before that every overlap of calls is
      refused, and whatever older calls complete changes nothing. */
  lemma {:induction false} OpenRefuses(c: Config, w: World, actions: seq<Action>)
    requires Inv(c, w) && w.cell.state == Open && Runs(c, w, actions)
    requires forall i | 0 <= i < |actions| :: TooEarly(c, actions[i], w.cell.openedAt)
    ensures var v := After(c, w, actions); v.calls == w.calls && v.cell == w.cell && v.log == w.log
    decreases |actions|
  {
    hide Step, Slots, Explained, Born, Numbered, Timed;
    if actions != [] {
      var a := actions[0];
      OpenStays(c, w, a);
      InvStep(c, w, a);
      OpenRefuses(c, Step(c, w, a), actions[1..]);
    }
  }

  lemma ProbeStays(c: Config, w: World, a: Action, k: nat)
    requires Slots(w) && w.cell.probing && Current(w, k) && Enabled(w, a) && Exclusive(c, a, k, w.cell.probeAt)
    ensures var v := Step(c, w, a); v.calls == w.calls && v.cell == w.cell && v.log == w.log && Current(v, k)
  {
    if a.Record? {
      assert !Current(w, a.call);
    }
    assert Seen(c, w, a) == [] && w.log + [] == w.log;
  }

  /** A second half-open admission needs the earlier probe recorded or its positive lease
      expired: until then every overlap of calls is refused and the probe keeps its slot. */
  lemma {:induction false} ProbeKeepsItsSlot(c: Config, w: World, actions: seq<Action>, k: nat)
    requires Inv(c, w) && w.cell.probing && Current(w, k) && Runs(c, w, actions)
    requires forall i | 0 <= i < |actions| :: Exclusive(c, actions[i], k, w.cell.probeAt)
    ensures var v := After(c, w, actions);
            && v.calls == w.calls && v.cell == w.cell && v.log == w.log && Current(v, k)
    decreases |actions|
  {
    hide Step, Slots, Explained, Born, Numbered, Timed, Current;
    if actions != [] {
      var a := actions[0];
      ProbeStays(c, w, a, k);
      InvStep(c, w, a);
      ProbeKeepsItsSlot(c, Step(c, w, a), actions[1..], k);
    }
  }

  /** And once the positive lease expired the next arrival does take over: the old probe turns
      stale, so its late completion is ignored. */
  lemma LeaseHandsOver(c: Config, w: World, k: nat, now: int, out: Outcome, later: int)
    requires Inv(c, w) && w.cell.probing && Current(w, k)
    requires c.openTimeout > 0 && now - w.cell.probeAt >= c.openTimeout
    ensures var v := Step(c, w, Admit(now));
            && v.calls == w.calls + 1 && Current(v, w.calls) && !Current(v, k) && k in v.out
            && Step(c, v, Record(k, out, later)).cell == v.cell
  {
  }
}
