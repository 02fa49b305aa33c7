/** The failure pipeline of one delivery: disposition (settle.go), the per-delivery scope
    (scope.go) and the handler entry point (invoke.go).

    Observer callbacks and publishers may panic. A delivery is modelled together with the set of
    points that panic in it, so a function that can unwind says so in its result. */
module Settle {
  import opened Base
  import opened Errors
  import opened Publish

  datatype Delivery = Delivery(count: int, max: int) {
    predicate Final() {
      max > 0 && count >= max
    }
  }

  /** What a context answers at one moment: whether it is done, and its cause. */
  datatype Context = Context(done: bool, cause: Option<Error>)

  datatype Disposition = Ack | Retry | RetryDelayed | Terminal

  datatype Outcome =
    | NoOutcome | Ok | LetteredOutcome | DuplicateOutcome | InterruptedOutcome | InProgressOutcome
    | RateLimitedOutcome | CircuitOpenOutcome | RetryOutcome | FailedOutcome | DroppedOutcome
    | PublishFailedOutcome | RejectedOutcome | DecodeFailedOutcome

  // ---------- pure decisions ----------

  predicate IsInterrupted(ctx: Context, err: Error) {
    ctx.done && ContextError(err)
  }

  predicate CausedBy(ctx: Context, s: Sentinel) {
    ctx.cause.Some? && Is(ctx.cause.value, s)
  }

  function WrapInterrupted(ctx: Context, err: Error): Error {
    if Is(err, ShutdownInterrupted) || !ContextError(err) || !CausedBy(ctx, ShutdownInterrupted) then err
    else Wrapped([Plain(ShutdownInterrupted), err])
  }

  function WrapDecodeError(err: Error): Error {
    if IsDecode(err) then err else DecodeFailed(Some(err))
  }

  /** Wrapping marks a context error whose cause is the shutdown, and nothing else, and it adds no other
      match. */
  lemma WrapsExactly(ctx: Context, e: Error, t: Sentinel)
    ensures Is(WrapInterrupted(ctx, e), t) <==>
              Is(e, t) || (t == ShutdownInterrupted && ContextError(e) && CausedBy(ctx, ShutdownInterrupted))
  {
    hide Is, ContextError, CausedBy;
    WrapAddsOneSentinel(ShutdownInterrupted, e);
  }

  /** What Decode returned always counts as a decode error, and matches what it matched. */
  lemma WrappedDecodes(e: Error, t: Sentinel)
    ensures IsDecode(WrapDecodeError(e)) && (Is(WrapDecodeError(e), t) <==> Is(e, t))
  {
    if !IsDecode(e) {
      var w := DecodeFailed(Some(e));
      assert Under(w) == NodesIn(Some(e)) == Nodes(e) && Nodes(w) == [w] + Nodes(e);
      assert w in Nodes(w);
      MatchConcat([w], Nodes(e), t);
    }
  }

  function RetryUnlessFinal(d: Delivery): Disposition {
    if d.Final() then Terminal else RetryDelayed
  }

  function Dispose(err: Option<Error>, d: Delivery): Disposition {
    if err.None? then Ack
    else
      var e := err.value;
      if Is(e, Duplicate) || Is(e, DeadLettered) then Ack
      else if Is(e, DeadLetterFailed) then RetryDelayed
      else if Is(e, HandlerPanic) then Terminal
      else if IsTerminal(e) then Terminal
      else if Is(e, UnknownVersion) || Is(e, CircuitOpen) || Is(e, RateLimited) || Is(e, InProgress) then
        RetryUnlessFinal(d)
      else if IsDecode(e) then Terminal
      else RetryUnlessFinal(d)
  }

  /** The error is one that a chain or a broker settled already. */
  predicate AlreadySettled(e: Error) {
    Is(e, Duplicate) || Is(e, DeadLettered)
  }

  /** The error ends the message on this delivery: every error does on the final one, and before that
      panics, terminal errors and decode errors that no rejection in front of the handler stands
      beside. */
  ghost predicate EndsMessage(e: Error, d: Delivery) {
    d.Final() || Is(e, HandlerPanic) || IsTerminal(e)
    || (IsDecode(e) && !exists s :: s in {UnknownVersion, CircuitOpen, RateLimited, InProgress} && Is(e, s))
  }

  /** The disposition table, whatever order the checks come in: duplicates and dead letters are
      acknowledged, a failed dead letter always comes back, and everything else ends on a final
      delivery; before that only panics, terminal errors and decode errors end a message, and a
      rejection in front of the handler keeps even a decode error alive. */
  lemma DisposeExactly(e: Error, d: Delivery)
    ensures Dispose(Some(e), d) == Ack <==> AlreadySettled(e)
    ensures Dispose(Some(e), d) == Terminal <==>
              !AlreadySettled(e) && !Is(e, DeadLetterFailed) && EndsMessage(e, d)
    ensures Dispose(Some(e), d) in {Ack, RetryDelayed, Terminal}
  {
  }

  /** A context without a Delivery is a single final delivery. */
  function Effective(d: Option<Delivery>): Delivery {
    if d.Some? then d.value else Delivery(1, 1)
  }

  function OutcomeOf(ctx: Context, d: Option<Delivery>, err: Option<Error>): Outcome {
    if err.None? then Ok
    else
      var e := err.value;
      if Is(e, DeadLettered) then LetteredOutcome
      else if Is(e, Duplicate) then DuplicateOutcome
      else if Is(e, ShutdownInterrupted) then InterruptedOutcome
      else if IsInterrupted(ctx, e) && !CausedBy(ctx, HandlerTimeout) then InterruptedOutcome
      else if Is(e, InProgress) then InProgressOutcome
      else if Is(e, RateLimited) then RateLimitedOutcome
      else if Is(e, CircuitOpen) then CircuitOpenOutcome
      else if Dispose(err, Effective(d)) == RetryDelayed && !Effective(d).Final() then RetryOutcome
      else FailedOutcome
  }

  /** The outcome of a handler run, whatever order the checks come in. */
  lemma OutcomeExactly(ctx: Context, d: Option<Delivery>, e: Error)
    ensures var o := OutcomeOf(ctx, d, Some(e));
            var ended := Is(e, ShutdownInterrupted) || (ctx.done && ContextError(e) && !CausedBy(ctx, HandlerTimeout));
            var rejected := Is(e, InProgress) || Is(e, RateLimited) || Is(e, CircuitOpen);
            var open := !AlreadySettled(e) && !ended;
            && (o == LetteredOutcome <==> Is(e, DeadLettered))
            && (o == DuplicateOutcome <==> Is(e, Duplicate) && !Is(e, DeadLettered))
            && (o == InterruptedOutcome <==> !AlreadySettled(e) && ended)
            && (o == InProgressOutcome <==> open && Is(e, InProgress))
            && (o == RateLimitedOutcome <==> open && Is(e, RateLimited) && !Is(e, InProgress))
            && (o == CircuitOpenOutcome <==> open && Is(e, CircuitOpen) && !Is(e, InProgress) && !Is(e, RateLimited))
            && (o == RetryOutcome <==>
                  open && !rejected && !Effective(d).Final()
                  && (Is(e, DeadLetterFailed) || !EndsMessage(e, Effective(d))))
            && (o == FailedOutcome <==>
                  open && !rejected
                  && (Effective(d).Final() || (!Is(e, DeadLetterFailed) && EndsMessage(e, Effective(d)))))
    ensures OutcomeOf(ctx, d, None) == Ok
  {
    hide EndsMessage, Dispose;
    DisposeExactly(e, Effective(d));
  }

  predicate IsFlowControl(o: Outcome) {
    o.InProgressOutcome? || o.RateLimitedOutcome? || o.CircuitOpenOutcome?
  }

  // ---------- the per-delivery scope ----------

  datatype HandlerResult = HandlerResult(outcome: Outcome, err: Option<Error>)
  datatype FailureReport = FailureReport(outcome: Outcome, reason: string, cause: Error)

  /** The scope, with the HandlerDone and Failure signals emitted under it. */
  datatype Scope = Scope(
    settles: bool, reported: bool, pending: Option<HandlerResult>, flushed: bool,
    handlerDone: seq<HandlerResult>, failures: seq<FailureReport>)

  /** What WithFailureScope installs. */
  const TRANSPORT := Scope(true, false, None, false, [], [])
  /** What InvokeHandler installs when the transport installed none. */
  const DETACHED := Scope(false, false, None, false, [], [])

  function Defer(s: Scope, r: HandlerResult): (Scope, bool) {
    if !s.settles || s.pending.Some? then (s, false) else (s.(pending := Some(r)), true)
  }

  function Mark(s: Scope): (Scope, bool) {
    (s.(reported := true), !s.reported)
  }

  function Flush(s: Scope, outcome: Outcome): Scope {
    if s.pending.None? || s.flushed then s
    else s.(flushed := true, handlerDone := s.handlerDone + [s.pending.value.(outcome := outcome)])
  }

  class FailureScope {
    var settles: bool
    var reported: bool
    var pending: Option<HandlerResult>
    var flushed: bool
    var handlerDone: seq<HandlerResult>
    var failures: seq<FailureReport>

    function Value(): Scope
      reads this
    {
      Scope(settles, reported, pending, flushed, handlerDone, failures)
    }

    constructor (settles: bool)
      ensures Value() == if settles then TRANSPORT else DETACHED
    {
      this.settles, reported, pending, flushed := settles, false, None, false;
      handlerDone, failures := [], [];
    }

    method MarkReported() returns (first: bool)
      modifies this
      ensures (Value(), first) == Mark(old(Value()))
    {
      if reported {
        return false;
      }
      reported := true;
      first := true;
    }

    method DeferHandlerDone(r: HandlerResult) returns (deferred: bool)
      modifies this
      ensures (Value(), deferred) == Defer(old(Value()), r)
    {
      if !settles || pending.Some? {
        return false;
      }
      pending := Some(r);
      deferred := true;
    }

    method FlushHandlerDone(outcome: Outcome)
      modifies this
      ensures Value() == Flush(old(Value()), outcome)
    {
      if pending.None? || flushed {
        return;
      }
      flushed := true;
      handlerDone := handlerDone + [pending.value.(outcome := outcome)];
    }
  }

  // ---------- where user code may panic, outside the handler ----------

  datatype Point = AtDecode | AtHandlerDone | AtDecodeFailed | AtPublish | AtPublishSignal | AtFailure | AtFlush

  // ---------- InvokeHandler ----------

  /** The end of InvokeHandler for a chain that returned err (a recovered panic is an error
      too): HandlerDone is deferred to Settle or emitted now. True when the observer panicked. */
  function InvokeEnd(s: Scope, ctx: Context, d: Option<Delivery>, err: Option<Error>, panics: set<Point>)
    : (Scope, bool)
  {
    var r := HandlerResult(OutcomeOf(ctx, d, err), err);
    var defers := r.outcome == FailedOutcome || (IsFlowControl(r.outcome) && Effective(d).Final());
    var (t, deferred) := if defers then Defer(s, r) else (s, false);
    if deferred then (t, false)
    else (t.(handlerDone := t.handlerDone + [r]), AtHandlerDone in panics)
  }

  // ---------- Settle ----------

  datatype Input = Input(sub: Context, evt: bool, err: Option<Error>, publisher: Option<Publisher>)

  /** No disposition is the zero Settlement a panicking Settle leaves behind. */
  datatype Settlement = Settlement(
    disposition: Option<Disposition>, reason: string, outcome: Outcome, err: Option<Error>)

  const ZERO := Settlement(None, "", NoOutcome, None)

  /** The end of a Settle call: stored says that its publisher accepted a record. */
  datatype Settled = Settled(scope: Scope, res: Settlement, unwound: bool, stored: bool)

  function ReportTerminal(s: Scope, evt: bool, outcome: Outcome, reason: string, err: Error): Scope {
    var (t, first) := Mark(s);
    if !first then t
    else
      var o := if outcome != PublishFailedOutcome && !evt && IsDecode(err) then DecodeFailedOutcome else outcome;
      t.(failures := s.failures + [FailureReport(o, reason, err)])
  }

  /** Report the outcome and return res, unless the report panics. */
  function Finish(s: Scope, input: Input, res: Settlement, err: Error, stored: bool, panics: set<Point>): Settled {
    var t := ReportTerminal(s, input.evt, res.outcome, res.reason, err);
    if !s.reported && AtFailure in panics then Settled(t, ZERO, true, stored)
    else Settled(t, res, false, stored)
  }

  function HandlerDoneOutcome(r: Settlement): Outcome {
    match r.disposition
    case Some(Ack) => if r.outcome == LetteredOutcome then LetteredOutcome else FailedOutcome
    case Some(Terminal) =>
      if r.outcome == LetteredOutcome || r.outcome == DroppedOutcome then r.outcome else FailedOutcome
    case Some(RetryDelayed) => if r.outcome == PublishFailedOutcome then FailedOutcome else RetryOutcome
    case Some(Retry) => InterruptedOutcome
    case None => FailedOutcome
  }

  /** What Settle asks about the error it is given. */
  datatype View = View(
    interrupted: bool, disposition: Disposition, duplicate: bool, lettered: bool, letterFailed: bool,
    decode: bool, reason: string)

  function Examine(sub: Context, d: Delivery, e: Error): View {
    View(IsInterrupted(sub, e), Dispose(Some(e), d), Is(e, Duplicate), Is(e, DeadLettered),
         Is(e, DeadLetterFailed), IsDecode(e), ReasonOf(e))
  }

  function SettleInterrupted(s: Scope, d: Delivery, input: Input, e: Error, panics: set<Point>): Settled {
    if !d.Final() then Settled(s, Settlement(Some(Retry), INTERRUPTED, NoOutcome, None), false, false)
    else
      var w := Wrapped([e]);
      Finish(s, input, Settlement(Some(Retry), INTERRUPTED, InterruptedOutcome, Some(w)), w, false, panics)
  }

  function SettleTerminal(s: Scope, d: Delivery, input: Input, e: Error, reason: string, panics: set<Point>): Settled {
    if input.publisher.None? then
      Finish(s, input, Settlement(Some(Terminal), reason, DroppedOutcome, Some(e)), e, false, panics)
    else if AtPublish in panics then Settled(s, ZERO, true, false)
    else
      var r := Loop(input.publisher.value, d.Final());
      if AtPublishSignal in panics then Settled(s, ZERO, true, r.err.None?)
      else if r.err.None? then
        var done := Lettered(Some(e), reason);
        Finish(s, input, Settlement(Some(Terminal), reason, LetteredOutcome, Some(done)), done, true, panics)
      else
        var failed := LetterFailed(Some(e), reason, r.err);
        if !d.Final() then Settled(s, Settlement(Some(RetryDelayed), reason, NoOutcome, Some(failed)), false, false)
        else
          var res := Settlement(Some(RetryDelayed), reason, PublishFailedOutcome, Some(failed));
          Finish(s, input, res, failed, false, panics)
  }

  /** Settle before its deferred flush. */
  function SettleBody(s: Scope, d: Delivery, input: Input, e: Error, v: View, panics: set<Point>): Settled {
    if !input.evt && v.decode && AtDecodeFailed in panics then Settled(s, ZERO, true, false)
    else if v.interrupted then SettleInterrupted(s, d, input, e, panics)
    else match v.disposition
      case Ack =>
        if v.duplicate || !v.lettered then
          Settled(s, Settlement(Some(Ack), v.reason, NoOutcome, None), false, false)
        else Finish(s, input, Settlement(Some(Ack), v.reason, LetteredOutcome, Some(e)), e, false, panics)
      case RetryDelayed =>
        if !v.letterFailed then
          Settled(s, Settlement(Some(RetryDelayed), v.reason, NoOutcome, None), false, false)
        else if !d.Final() then
          Settled(s, Settlement(Some(RetryDelayed), v.reason, NoOutcome, Some(e)), false, false)
        else Finish(s, input, Settlement(Some(RetryDelayed), v.reason, PublishFailedOutcome, Some(e)), e, false, panics)
      case _ => SettleTerminal(s, d, input, e, v.reason, panics)
  }

  function SettleMessage(s: Scope, d: Option<Delivery>, input: Input, panics: set<Point>): Settled {
    if input.err.None? then Settled(s, Settlement(Some(Ack), "", NoOutcome, None), false, false)
    else
      var v := Examine(input.sub, Effective(d), input.err.value);
      var r := SettleBody(s, Effective(d), input, input.err.value, v, panics);
      var t := Flush(r.scope, HandlerDoneOutcome(r.res));
      r.(scope := t, unwound := r.unwound || (t != r.scope && AtFlush in panics))
  }

  // ---------- one delivery through InvokeHandler and Settle ----------

  /** One handled message on a transport: the chain error (None is success), what the contexts
      answer when HandlerDone is decided, when the error is wrapped and when it is settled, and
      whether the bus's own handler timeout expired. */
  datatype Handled = Handled(
    err: Option<Error>, atEnd: Context, atWrap: Context, atSettle: Context, timedOut: bool,
    publisher: Option<Publisher>)

  /** What the transport hands to Settle for the chain error e. */
  function TransportError(h: Handled, e: Error): Error {
    var t := if h.timedOut && ContextError(e) then Wrapped([Plain(HandlerTimeout), e]) else e;
    WrapInterrupted(h.atWrap, t)
  }

  function HandleOnce(h: Handled, d: Option<Delivery>): Settled {
    var s := InvokeEnd(TRANSPORT, h.atEnd, d, h.err, {}).0;
    var err := if h.err.None? then None else Some(TransportError(h, h.err.value));
    SettleMessage(s, d, Input(h.atSettle, true, err, h.publisher), {})
  }

  /** The transport only adds the timeout and shutdown sentinels, so it never turns a failure into
      a duplicate or a dead letter, or back. */
  lemma TransportErrorKeeps(h: Handled, e: Error, s: Sentinel)
    requires s != HandlerTimeout && s != ShutdownInterrupted
    ensures Is(TransportError(h, e), s) <==> Is(e, s)
  {
    var t := if h.timedOut && ContextError(e) then Wrapped([Plain(HandlerTimeout), e]) else e;
    WrapAddsOneSentinel(HandlerTimeout, e);
    WrapAddsOneSentinel(ShutdownInterrupted, t);
  }

  /** Examine never calls a retry final, except for a failed dead letter, and acknowledges only
      duplicates and dead letters. */
  ghost predicate Sensible(v: View, d: Delivery) {
    && (v.disposition == Ack <==> v.duplicate || v.lettered)
    && v.disposition != Retry
    && (v.disposition == RetryDelayed && !v.letterFailed ==> !d.Final())
  }

  lemma ExamineIsSensible(sub: Context, d: Delivery, e: Error)
    ensures Sensible(Examine(sub, d, e), d)
  {
  }

  /** What a Settle that did not panic leaves of a scope that had not reported: the HandlerDone
      side untouched, and one Failure exactly when the Settlement names an outcome. */
  ghost predicate Tidy(s: Scope, d: Delivery, r: Settled) {
    && !r.unwound && r.res.disposition.Some?
    && r.scope.pending == s.pending && r.scope.flushed == s.flushed
    && r.scope.handlerDone == s.handlerDone
    && (r.res.outcome == NoOutcome ==> r.scope.failures == s.failures)
    && (r.res.outcome != NoOutcome ==>
          |r.scope.failures| == |s.failures| + 1 && r.scope.failures[|s.failures|].outcome == r.res.outcome)
    && (r.res.outcome == NoOutcome ==>
          r.res.disposition == Some(Ack)
          || (r.res.disposition in {Some(Retry), Some(RetryDelayed)} && !d.Final()))
    && (r.res.outcome != NoOutcome ==>
          match r.res.disposition
          case Some(Retry) => r.res.outcome == InterruptedOutcome
          case Some(RetryDelayed) => r.res.outcome == PublishFailedOutcome
          case Some(Ack) => r.res.outcome == LetteredOutcome
          case _ => r.res.outcome in {LetteredOutcome, DroppedOutcome})
  }

  lemma FinishReports(s: Scope, input: Input, res: Settlement, err: Error, stored: bool)
    requires !s.reported && input.evt
    ensures var r := Finish(s, input, res, err, stored, {});
            && !r.unwound && r.res == res && r.stored == stored
            && r.scope == s.(reported := true, failures := s.failures + [FailureReport(res.outcome, res.reason, err)])
  {
  }

  lemma InterruptedIsTidy(s: Scope, d: Delivery, input: Input, e: Error)
    requires !s.reported && input.evt
    ensures Tidy(s, d, SettleInterrupted(s, d, input, e, {}))
    ensures SettleInterrupted(s, d, input, e, {}).res.disposition == Some(Retry)
  {
    var w := Wrapped([e]);
    FinishReports(s, input, Settlement(Some(Retry), INTERRUPTED, InterruptedOutcome, Some(w)), w, false);
  }

  lemma TerminalIsTidy(s: Scope, d: Delivery, input: Input, e: Error, reason: string)
    requires !s.reported && input.evt
    ensures Tidy(s, d, SettleTerminal(s, d, input, e, reason, {}))
    ensures SettleTerminal(s, d, input, e, reason, {}).res.disposition in {Some(Terminal), Some(RetryDelayed)}
  {
    if input.publisher.None? {
      FinishReports(s, input, Settlement(Some(Terminal), reason, DroppedOutcome, Some(e)), e, false);
    } else {
      var err := Loop(input.publisher.value, d.Final()).err;
      if err.None? {
        var done := Lettered(Some(e), reason);
        FinishReports(s, input, Settlement(Some(Terminal), reason, LetteredOutcome, Some(done)), done, true);
      } else {
        var failed := LetterFailed(Some(e), reason, err);
        var res := Settlement(Some(RetryDelayed), reason, PublishFailedOutcome, Some(failed));
        FinishReports(s, input, res, failed, false);
      }
    }
  }

  lemma BodyIsTidy(s: Scope, d: Delivery, input: Input, e: Error, v: View)
    requires !s.reported && input.evt && Sensible(v, d)
    ensures var r := SettleBody(s, d, input, e, v, {});
            && Tidy(s, d, r)
            && (r.res.disposition == Some(Ack) <==> !v.interrupted && v.disposition == Ack)
            && (r.res.disposition == Some(Ack) ==> (r.res.outcome == NoOutcome <==> v.duplicate))
  {
    if v.interrupted {
      InterruptedIsTidy(s, d, input, e);
    } else if v.disposition == Ack {
      FinishReports(s, input, Settlement(Some(Ack), v.reason, LetteredOutcome, Some(e)), e, false);
    } else if v.disposition == RetryDelayed {
      FinishReports(s, input, Settlement(Some(RetryDelayed), v.reason, PublishFailedOutcome, Some(e)), e, false);
    } else {
      TerminalIsTidy(s, d, input, e, v.reason);
    }
  }

  /** A tidy body followed by the deferred flush. */
  lemma SettleIsTidy(s: Scope, d: Option<Delivery>, input: Input)
    requires !s.reported && !s.flushed && input.evt && input.err.Some?
    ensures var v := Examine(input.sub, Effective(d), input.err.value);
            var b := SettleBody(s, Effective(d), input, input.err.value, v, {});
            var r := SettleMessage(s, d, input, {});
            && Sensible(v, Effective(d)) && Tidy(s, Effective(d), b)
            && r == b.(scope := Flush(b.scope, HandlerDoneOutcome(b.res)))
            && (r.res.disposition == Some(Ack) ==>
                  (r.res.outcome == NoOutcome <==> Is(input.err.value, Duplicate))
                  && (Is(input.err.value, Duplicate) || Is(input.err.value, DeadLettered)))
  {
    var v := Examine(input.sub, Effective(d), input.err.value);
    ExamineIsSensible(input.sub, Effective(d), input.err.value);
    BodyIsTidy(s, Effective(d), input, input.err.value, v);
  }

  /** What InvokeHandler leaves under a fresh transport scope: HandlerDone out, or deferred. */
  lemma InvokeEndsOnce(ctx: Context, d: Option<Delivery>, err: Option<Error>)
    ensures var (s, unwound) := InvokeEnd(TRANSPORT, ctx, d, err, {});
            && !unwound && !s.reported && !s.flushed && s.failures == []
            && (s.pending.Some? <==> s.handlerDone == [])
            && |s.handlerDone| <= 1
            && (s.pending.Some? ==> err.Some? && !Is(err.value, DeadLettered) && !Is(err.value, Duplicate))
  {
  }

  /** For every error tree, every moment a context may end and every publisher: HandlerDone is
      emitted exactly once and Failure at most once; Failure is emitted exactly when the
      Settlement names an outcome. */
  lemma SignalsExactlyOnce(h: Handled, d: Option<Delivery>)
    ensures var r := HandleOnce(h, d);
            && !r.unwound
            && |r.scope.handlerDone| == 1
            && |r.scope.failures| == (if r.res.outcome == NoOutcome then 0 else 1)
            && (h.err.None? ==> r.res == Settlement(Some(Ack), "", NoOutcome, None))
  {
    InvokeEndsOnce(h.atEnd, d, h.err);
    if h.err.Some? {
      var s := InvokeEnd(TRANSPORT, h.atEnd, d, h.err, {}).0;
      SettleIsTidy(s, d, Input(h.atSettle, true, Some(TransportError(h, h.err.value)), h.publisher));
    }
  }

  // ---------- exactly how a failed delivery is settled ----------

  /** The publisher stored the record of this delivery, or there is one and it did not. */
  predicate Publishes(p: Option<Publisher>, d: Delivery) {
    p.Some? && Loop(p.value, d.Final()).err.None?
  }

  predicate Refuses(p: Option<Publisher>, d: Delivery) {
    p.Some? && Loop(p.value, d.Final()).err.Some?
  }

  /** The settlement of the error e: interrupted says that it counts as interrupted, and p is the
      transport's own publisher. */
  ghost predicate Answers(e: Error, d: Delivery, interrupted: bool, p: Option<Publisher>, r: Settlement, stored: bool) {
    var ends := !AlreadySettled(e) && !Is(e, DeadLetterFailed) && EndsMessage(e, d);
    var failed := !AlreadySettled(e) && (Is(e, DeadLetterFailed) || (EndsMessage(e, d) && Refuses(p, d)));
    && (r.disposition == Some(Retry) <==> interrupted)
    && (r.disposition == Some(Ack) <==> !interrupted && AlreadySettled(e))
    && (r.disposition == Some(Terminal) <==> !interrupted && ends && !Refuses(p, d))
    && (r.disposition == Some(RetryDelayed) <==>
          !interrupted && !AlreadySettled(e) && (failed || !EndsMessage(e, d)))
    && (stored <==> !interrupted && ends && Publishes(p, d))
    && (r.outcome == InterruptedOutcome <==> interrupted && d.Final())
    && (r.outcome == LetteredOutcome <==>
          !interrupted && ((Is(e, DeadLettered) && !Is(e, Duplicate)) || (ends && Publishes(p, d))))
    && (r.outcome == DroppedOutcome <==> !interrupted && ends && p.None?)
    && (r.outcome == PublishFailedOutcome <==> !interrupted && failed && d.Final())
    && (r.outcome == NoOutcome <==>
          if interrupted || failed then !d.Final() else Is(e, Duplicate) || (!AlreadySettled(e) && !ends))
    && r.reason == (if interrupted then INTERRUPTED else ReasonOf(e))
    && (r.err.Some? <==> r.outcome != NoOutcome || (!interrupted && failed))
  }

  lemma BodyAnswers(s: Scope, d: Delivery, input: Input, e: Error)
    ensures var r := SettleBody(s, d, input, e, Examine(input.sub, d, e), {});
            !r.unwound && Answers(e, d, IsInterrupted(input.sub, e), input.publisher, r.res, r.stored)
  {
    hide EndsMessage, Dispose, Loop, ReportTerminal, ReasonOf, IsDecode;
    DisposeExactly(e, d);
  }

  /** What the error of a settlement still is: the error that was settled, marked when it was stored or
      could not be. */
  lemma BodyKeepsError(s: Scope, d: Delivery, input: Input, e: Error, t: Sentinel)
    requires Is(e, t)
    ensures var r := SettleBody(s, d, input, e, Examine(input.sub, d, e), {});
            r.res.err.Some? ==> Is(r.res.err.value, t)
  {
    hide EndsMessage, Dispose, Loop, ReportTerminal, ReasonOf, IsDecode, IsInterrupted, Is;
    var err := if input.publisher.Some? then Loop(input.publisher.value, d.Final()).err else None;
    MarksOf(e, ReasonOf(e), if err.Some? then err.value else e, t);
    WrapKeeps(e, t);
  }

  lemma MarksOf(e: Error, reason: string, perr: Error, t: Sentinel)
    ensures Is(Lettered(Some(e), reason), t) <==> t == DeadLettered || Is(e, t)
    ensures Is(LetterFailed(Some(e), reason, Some(perr)), t) <==> t == DeadLetterFailed || Is(perr, t) || Is(e, t)
  {
    hide Is;
    DeadLetterMatches(e, reason, perr);
  }

  lemma WrapKeeps(e: Error, t: Sentinel)
    ensures Is(Wrapped([e]), t) <==> Is(e, t)
  {
    assert [e][1..] == [] && NodesOf([e]) == Nodes(e) + NodesOf([]);
    assert Nodes(e) + [] == Nodes(e) && Nodes(Wrapped([e])) == [Wrapped([e])] + Nodes(e);
    MatchConcat([Wrapped([e])], Nodes(e), t);
  }

  /** The exact settlement of a failed delivery through InvokeHandler and Settle: where the message
      goes, whether the transport stored it, what is reported, for which reason and with which error.
      It is given back at once exactly when the error counts as interrupted; with a delay exactly when a
      dead letter failed, or the error does not end it on this delivery. */
  lemma SettledExactly(h: Handled, d: Option<Delivery>)
    requires h.err.Some?
    ensures var e := TransportError(h, h.err.value);
            var r := HandleOnce(h, d);
            && Answers(e, Effective(d), IsInterrupted(h.atSettle, e), h.publisher, r.res, r.stored)
            && (r.res.outcome != NoOutcome ==>
                  r.scope.failures == [FailureReport(r.res.outcome, r.res.reason, r.res.err.value)])
            && (forall t | Is(h.err.value, t) && t != HandlerTimeout && t != ShutdownInterrupted
                  && r.res.err.Some? :: Is(r.res.err.value, t))
  {
    hide Answers, Dispose, EndsMessage, Is, Loop;
    var e := TransportError(h, h.err.value);
    var s := InvokeEnd(TRANSPORT, h.atEnd, d, h.err, {}).0;
    var input := Input(h.atSettle, true, Some(e), h.publisher);
    InvokeEndsOnce(h.atEnd, d, h.err);
    BodyAnswers(s, Effective(d), input, e);
    BodyReports(s, Effective(d), input, e);
    forall t | Is(h.err.value, t) && t != HandlerTimeout && t != ShutdownInterrupted && HandleOnce(h, d).res.err.Some?
      ensures Is(HandleOnce(h, d).res.err.value, t)
    {
      TransportErrorKeeps(h, h.err.value, t);
      BodyKeepsError(s, Effective(d), input, e, t);
    }
  }

  /** A stored record shows in the error of the settlement, and only that or an earlier mark does. */
  lemma StoredIsLettered(h: Handled, d: Option<Delivery>)
    requires h.err.Some?
    ensures var r := HandleOnce(h, d); r.stored ==> r.res.err.Some? && Is(r.res.err.value, DeadLettered)
  {
    var e := TransportError(h, h.err.value);
    var s := InvokeEnd(TRANSPORT, h.atEnd, d, h.err, {}).0;
    BodyStored(s, Effective(d), Input(h.atSettle, true, Some(e), h.publisher), e);
  }

  lemma BodyStored(s: Scope, d: Delivery, input: Input, e: Error)
    ensures var r := SettleBody(s, d, input, e, Examine(input.sub, d, e), {});
            r.stored ==> r.res.err.Some? && Is(r.res.err.value, DeadLettered)
  {
    hide Dispose, Loop, ReportTerminal, ReasonOf, IsDecode, Is;
    DeadLetterMatches(e, ReasonOf(e), e);
  }

  /** The transport tried to dead-letter the error and its publisher failed with an error that matches
      t. */
  ghost predicate FailsWith(e: Error, d: Delivery, interrupted: bool, p: Option<Publisher>, t: Sentinel) {
    && !interrupted && !AlreadySettled(e) && !Is(e, DeadLetterFailed) && EndsMessage(e, d)
    && Refuses(p, d) && Is(Loop(p.value, d.Final()).err.value, t)
  }

  /** Without a stored record the error of the settlement is a duplicate or a dead letter only if the
      settled error is, or the publisher failed with one. */
  lemma BodyErrorIs(s: Scope, d: Delivery, input: Input, e: Error, t: Sentinel)
    requires t == Duplicate || t == DeadLettered
    ensures var r := SettleBody(s, d, input, e, Examine(input.sub, d, e), {});
            r.res.err.Some? && !r.stored ==>
              (Is(r.res.err.value, t) <==>
                 Is(e, t) || FailsWith(e, d, IsInterrupted(input.sub, e), input.publisher, t))
  {
    hide EndsMessage, Dispose, Loop, ReportTerminal, ReasonOf, IsDecode, Is;
    DisposeExactly(e, d);
    WrapKeeps(e, t);
    var err := if input.publisher.Some? then Loop(input.publisher.value, d.Final()).err else None;
    MarksOf(e, ReasonOf(e), if err.Some? then err.value else e, t);
  }

  lemma SettledErrorIs(h: Handled, d: Option<Delivery>, t: Sentinel)
    requires h.err.Some? && (t == Duplicate || t == DeadLettered)
    ensures var e := TransportError(h, h.err.value);
            var r := HandleOnce(h, d);
            r.res.err.Some? && !r.stored ==>
              (Is(r.res.err.value, t) <==>
                 Is(h.err.value, t)
                 || FailsWith(e, Effective(d), IsInterrupted(h.atSettle, e), h.publisher, t))
  {
    hide FailsWith, Is;
    var e := TransportError(h, h.err.value);
    var s := InvokeEnd(TRANSPORT, h.atEnd, d, h.err, {}).0;
    TransportErrorKeeps(h, h.err.value, t);
    BodyErrorIs(s, Effective(d), Input(h.atSettle, true, Some(e), h.publisher), e, t);
  }

  lemma BodyReports(s: Scope, d: Delivery, input: Input, e: Error)
    requires !s.reported && s.failures == [] && input.evt
    ensures var r := SettleBody(s, d, input, e, Examine(input.sub, d, e), {});
            r.res.outcome != NoOutcome ==>
              r.res.err.Some? && r.scope.failures == [FailureReport(r.res.outcome, r.res.reason, r.res.err.value)]
  {
    hide Dispose, Loop, ReasonOf, IsDecode, Is;
  }

  /** Only the first report under a scope counts: a second one, whatever it says, changes nothing. */
  lemma OnlyTheFirstReport(s: Scope, evt: bool, o: Outcome, reason: string, e: Error,
                           evt2: bool, o2: Outcome, reason2: string, e2: Error)
    ensures var t := ReportTerminal(s, evt, o, reason, e);
            && t.reported && |t.failures| == |s.failures| + (if s.reported then 0 else 1)
            && ReportTerminal(t, evt2, o2, reason2, e2) == t
    ensures Mark(s).1 == !s.reported && !Mark(Mark(s).0).1
  {
  }

  /** Under a scope that no Settle will flush, or that holds a result already, HandlerDone goes out at
      once, whatever the outcome. */
  lemma DetachedGoesOut(s: Scope, ctx: Context, d: Option<Delivery>, err: Option<Error>)
    requires !s.settles || s.pending.Some?
    ensures InvokeEnd(s, ctx, d, err, {})
            == (s.(handlerDone := s.handlerDone + [HandlerResult(OutcomeOf(ctx, d, err), err)]), false)
  {
    hide OutcomeOf;
  }

  /** HandlerDone waits for the settlement exactly when the run failed, or was turned away on the final
      delivery; otherwise it says how the run ended. */
  lemma HandlerDoneExactly(h: Handled, d: Option<Delivery>)
    ensures var o := OutcomeOf(h.atEnd, d, h.err);
            var r := HandleOnce(h, d);
            var waits := o == FailedOutcome
                         || (o in {InProgressOutcome, RateLimitedOutcome, CircuitOpenOutcome} && Effective(d).Final());
            && (waits <==> InvokeEnd(TRANSPORT, h.atEnd, d, h.err, {}).0.pending.Some?)
            && |r.scope.handlerDone| == 1 && r.scope.handlerDone[0].err == h.err
            && (!waits ==> r.scope.handlerDone[0].outcome == o)
  {
    hide OutcomeOf;
    InvokeEndsOnce(h.atEnd, d, h.err);
    if h.err.Some? {
      var s := InvokeEnd(TRANSPORT, h.atEnd, d, h.err, {}).0;
      SettleIsTidy(s, d, Input(h.atSettle, true, Some(TransportError(h, h.err.value)), h.publisher));
    } else {
      assert OutcomeOf(h.atEnd, d, None) == Ok by { SuccessIsOk(h.atEnd, d); }
    }
  }

  /** A context without a Delivery is settled as the first and last one. */
  lemma NoDeliveryIsTheLast(h: Handled)
    ensures HandleOnce(h, None) == HandleOnce(h, Some(Delivery(1, 1))) && Delivery(1, 1).Final()
  {
    hide SettleBody, Dispose;
  }

  lemma SuccessIsOk(ctx: Context, d: Option<Delivery>)
    ensures OutcomeOf(ctx, d, None) == Ok
  {
  }

  /** A quiet settlement, on any delivery, is a success, a duplicate, or a message that the server
      redelivers. */
  lemma QuietMeansDoneOrRedelivered(h: Handled, d: Option<Delivery>)
    requires HandleOnce(h, d).scope.failures == []
    ensures var r := HandleOnce(h, d);
            || (r.res.disposition == Some(Ack) && (h.err.None? || Is(h.err.value, Duplicate)))
            || (r.res.disposition in {Some(Retry), Some(RetryDelayed)} && !Effective(d).Final())
  {
    if h.err.Some? {
      TransportErrorKeeps(h, h.err.value, Duplicate);
      InvokeEndsOnce(h.atEnd, d, h.err);
      var s := InvokeEnd(TRANSPORT, h.atEnd, d, h.err, {}).0;
      SettleIsTidy(s, d, Input(h.atSettle, true, Some(TransportError(h, h.err.value)), h.publisher));
    }
  }

  /** On a final delivery every error that is not a duplicate is reported. */
  lemma FinalFailureIsReported(h: Handled, d: Option<Delivery>)
    requires Effective(d).Final() && h.err.Some? && !Is(h.err.value, Duplicate)
    ensures |HandleOnce(h, d).scope.failures| == 1
  {
    SignalsExactlyOnce(h, d);
    if HandleOnce(h, d).scope.failures == [] {
      QuietMeansDoneOrRedelivered(h, d);
    }
  }

  /** A deferred HandlerDone tells what really happened: the outcome of the Failure, with a failed
      dead-letter publish shown as failed; without a Failure the message is redelivered. */
  lemma DeferredDoneAgreesWithFailure(h: Handled, d: Option<Delivery>)
    requires InvokeEnd(TRANSPORT, h.atEnd, d, h.err, {}).0.pending.Some?
    ensures var r := HandleOnce(h, d);
            && |r.scope.handlerDone| == 1
            && var done := r.scope.handlerDone[0].outcome;
               if |r.scope.failures| == 1 then
                 done == (if r.scope.failures[0].outcome == PublishFailedOutcome then FailedOutcome
                          else r.scope.failures[0].outcome)
               else
                 done == (if r.res.disposition == Some(Retry) then InterruptedOutcome else RetryOutcome)
                 && !Effective(d).Final()
  {
    InvokeEndsOnce(h.atEnd, d, h.err);
    TransportErrorKeeps(h, h.err.value, Duplicate);
    TransportErrorKeeps(h, h.err.value, DeadLettered);
    var s := InvokeEnd(TRANSPORT, h.atEnd, d, h.err, {}).0;
    SettleIsTidy(s, d, Input(h.atSettle, true, Some(TransportError(h, h.err.value)), h.publisher));
  }

  /** A settlement by what it says about the message. */
  function Shown(r: Settlement): Outcome {
    if r.outcome in {LetteredOutcome, DroppedOutcome, InterruptedOutcome} then r.outcome
    else if r.disposition == Some(Retry) then InterruptedOutcome
    else if r.disposition == Some(RetryDelayed) && r.outcome == NoOutcome then RetryOutcome
    else FailedOutcome
  }

  /** Settle unwound, and left no settlement, if and only if it reported. */
  predicate Called(s: Scope, r: Settled) {
    && (r.unwound <==> |r.scope.failures| > |s.failures|)
    && (r.unwound ==> r.res == ZERO)
  }

  /** What every way to settle does with the result held back, and with an observer that panics. */
  predicate Shows(s: Scope, r: Settled, panics: set<Point>) {
    && HandlerDoneOutcome(r.res) == Shown(r.res)
    && r.scope.pending == s.pending && r.scope.flushed == s.flushed && r.scope.handlerDone == s.handlerDone
    && (panics == {AtFailure} ==> Called(s, r))
  }

  lemma ZeroShows()
    ensures HandlerDoneOutcome(ZERO) == Shown(ZERO)
  {
  }

  lemma ReportKeepsPending(s: Scope, evt: bool, outcome: Outcome, reason: string, err: Error)
    ensures var t := ReportTerminal(s, evt, outcome, reason, err);
            && t.pending == s.pending && t.flushed == s.flushed && t.handlerDone == s.handlerDone
            && |t.failures| == |s.failures| + if s.reported then 0 else 1
  {
    hide IsDecode;
  }

  lemma FinishShows(s: Scope, input: Input, res: Settlement, err: Error, stored: bool, panics: set<Point>)
    requires HandlerDoneOutcome(res) == Shown(res)
    ensures Shows(s, Finish(s, input, res, err, stored, panics), panics)
  {
    hide HandlerDoneOutcome, Shown, ReportTerminal;
    ZeroShows();
    ReportKeepsPending(s, input.evt, res.outcome, res.reason, err);
  }

  lemma InterruptedShows(s: Scope, d: Delivery, input: Input, e: Error, panics: set<Point>)
    ensures Shows(s, SettleInterrupted(s, d, input, e, panics), panics)
  {
    hide Finish;
    var w := Wrapped([e]);
    FinishShows(s, input, Settlement(Some(Retry), INTERRUPTED, InterruptedOutcome, Some(w)), w, false, panics);
  }

  lemma TerminalShows(s: Scope, d: Delivery, input: Input, e: Error, reason: string, panics: set<Point>)
    ensures Shows(s, SettleTerminal(s, d, input, e, reason, panics), panics)
  {
    hide Finish, Loop;
    if input.publisher.None? {
      FinishShows(s, input, Settlement(Some(Terminal), reason, DroppedOutcome, Some(e)), e, false, panics);
    } else {
      var done := Lettered(Some(e), reason);
      var failed := LetterFailed(Some(e), reason, Loop(input.publisher.value, d.Final()).err);
      FinishShows(s, input, Settlement(Some(Terminal), reason, LetteredOutcome, Some(done)), done, true, panics);
      FinishShows(s, input, Settlement(Some(RetryDelayed), reason, PublishFailedOutcome, Some(failed)), failed, false,
                  panics);
    }
  }

  lemma BodyShows(s: Scope, d: Delivery, input: Input, e: Error, v: View, panics: set<Point>)
    ensures Shows(s, SettleBody(s, d, input, e, v, panics), panics)
  {
    hide Finish, SettleInterrupted, SettleTerminal;
    InterruptedShows(s, d, input, e, panics);
    TerminalShows(s, d, input, e, v.reason, panics);
    FinishShows(s, input, Settlement(Some(Ack), v.reason, LetteredOutcome, Some(e)), e, false, panics);
    FinishShows(s, input, Settlement(Some(RetryDelayed), v.reason, PublishFailedOutcome, Some(e)), e, false, panics);
  }

  /** The result a scope holds back goes out when Settle returns, whatever delivery, error or panic it
      settled: as dead-lettered, dropped or interrupted when the settlement says so, as a retry or an
      interruption when the message comes back without a Failure, and as failed in every other case, a
      panicking Settle included. */
  lemma FlushedExactly(s: Scope, d: Option<Delivery>, input: Input, panics: set<Point>)
    requires s.pending.Some? && !s.flushed && input.err.Some?
    ensures var r := SettleMessage(s, d, input, panics);
            r.scope.handlerDone == s.handlerDone + [s.pending.value.(outcome := Shown(r.res))]
  {
    hide SettleBody, Examine, Shown;
    var v := Examine(input.sub, Effective(d), input.err.value);
    BodyShows(s, Effective(d), input, input.err.value, v, panics);
  }

  /** An observer that panics in Failure unwinds Settle if and only if it was called, and leaves no
      settlement behind. */
  lemma FailurePanicUnwinds(s: Scope, d: Option<Delivery>, input: Input)
    requires input.err.Some?
    ensures Called(s, SettleMessage(s, d, input, {AtFailure}))
  {
    hide SettleBody, Examine, Shown;
    var v := Examine(input.sub, Effective(d), input.err.value);
    BodyShows(s, Effective(d), input, input.err.value, v, {AtFailure});
  }

  lemma FinishStores(s: Scope, input: Input, res: Settlement, err: Error, stored: bool, panics: set<Point>)
    ensures Finish(s, input, res, err, stored, panics).stored == stored
  {
  }

  lemma TerminalStores(s: Scope, d: Delivery, input: Input, e: Error, reason: string, panics: set<Point>)
    ensures SettleTerminal(s, d, input, e, reason, panics).stored
            <==> AtPublish !in panics && Publishes(input.publisher, d)
  {
    hide Finish, Loop;
    if input.publisher.None? {
      FinishStores(s, input, Settlement(Some(Terminal), reason, DroppedOutcome, Some(e)), e, false, panics);
    } else {
      var done := Lettered(Some(e), reason);
      var failed := LetterFailed(Some(e), reason, Loop(input.publisher.value, d.Final()).err);
      FinishStores(s, input, Settlement(Some(Terminal), reason, LetteredOutcome, Some(done)), done, true, panics);
      FinishStores(s, input, Settlement(Some(RetryDelayed), reason, PublishFailedOutcome, Some(failed)), failed, false,
                   panics);
    }
  }

  lemma BodyStores(s: Scope, d: Delivery, input: Input, e: Error, v: View, panics: set<Point>)
    requires v.disposition in {Ack, RetryDelayed, Terminal}
    ensures SettleBody(s, d, input, e, v, panics).stored
            <==> !v.interrupted && v.disposition == Terminal && AtPublish !in panics && Publishes(input.publisher, d)
                 && (input.evt || !v.decode || AtDecodeFailed !in panics)
  {
    hide Finish, SettleTerminal, Publishes;
    var w := Wrapped([e]);
    TerminalStores(s, d, input, e, v.reason, panics);
    FinishStores(s, input, Settlement(Some(Retry), INTERRUPTED, InterruptedOutcome, Some(w)), w, false, panics);
    FinishStores(s, input, Settlement(Some(Ack), v.reason, LetteredOutcome, Some(e)), e, false, panics);
    FinishStores(s, input, Settlement(Some(RetryDelayed), v.reason, PublishFailedOutcome, Some(e)), e, false, panics);
  }

  /** Settle stores a record, whatever panics before or after, if and only if the error does not count as
      interrupted, nobody settled it before, it ends the message on this delivery, no panic came before the
      publisher answered, and it accepted. */
  lemma StoredExactly(s: Scope, d: Option<Delivery>, input: Input, panics: set<Point>)
    requires input.err.Some?
    ensures var e := input.err.value;
            SettleMessage(s, d, input, panics).stored
            <==> !IsInterrupted(input.sub, e) && !AlreadySettled(e) && !Is(e, DeadLetterFailed)
                 && EndsMessage(e, Effective(d)) && Publishes(input.publisher, Effective(d))
                 && AtPublish !in panics && (input.evt || !IsDecode(e) || AtDecodeFailed !in panics)
  {
    hide SettleBody, Publishes, Dispose, EndsMessage, AlreadySettled, IsInterrupted, IsDecode, Is;
    var e := input.err.value;
    DisposeExactly(e, Effective(d));
    BodyStores(s, Effective(d), input, e, Examine(input.sub, Effective(d), e), panics);
  }

  /** A message the chain dead-lettered is acknowledged exactly when it does not count as
      interrupted: when the subscription ended meanwhile and the dead-lettered cause holds a
      context error, it goes back to the server instead. */
  lemma DeadLetteredIsAckedUnlessInterrupted(s: Scope, d: Option<Delivery>, input: Input)
    requires !s.reported && !s.flushed && input.evt && input.err.Some? && Is(input.err.value, DeadLettered)
    ensures SettleMessage(s, d, input, {}).res.disposition
            == if IsInterrupted(input.sub, input.err.value) then Some(Retry) else Some(Ack)
  {
    SettleIsTidy(s, d, input);
    BodyIsTidy(s, Effective(d), input, input.err.value, Examine(input.sub, Effective(d), input.err.value));
    if IsInterrupted(input.sub, input.err.value) {
      InterruptedIsTidy(s, Effective(d), input, input.err.value);
    }
  }
}
