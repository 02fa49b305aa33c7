/** The whole life of one JetStream message (msgHandler in jetstream/bus.go): every delivery is
    settled into one broker action, and Nak brings the message back until its deliveries end. */
module Message {
  import opened Base
  import opened Errors
  import opened Settle

  datatype Action = AckMsg | Nak | NakWithDelay | Term

  /** What happens around one delivery: handed back because the bus is closing, not decodable, or
      handled; and the set of points outside the handler that panic in it. */
  datatype Visit = Visit(handBack: bool, undecodable: Option<Error>, h: Handled, panics: set<Point>)

  datatype Verdict = Verdict(action: Action, failures: seq<FailureReport>, stored: bool)

  /** The error and the subscription context a handed-back message is settled with. */
  const HANDED_BACK := Wrapped([Plain(ShutdownInterrupted), Plain(Canceled)])
  const INTERRUPTED_CONTEXT := Context(true, Some(Plain(ShutdownInterrupted)))

  function ActionOf(d: Option<Disposition>): Action {
    match d
    case Some(Retry) => Nak
    case Some(RetryDelayed) => NakWithDelay
    case Some(Terminal) => Term
    case _ => AckMsg
  }

  function DroppedByPanic(): FailureReport {
    FailureReport(DroppedOutcome, PANIC, Panicked(0))
  }

  /** The deferred recover. ended: the bus publisher stored the record or the report began. */
  function Recover(d: Delivery, ended: bool, failures: seq<FailureReport>, stored: bool): Verdict {
    if d.Final() && !ended then Verdict(Term, failures + [DroppedByPanic()], stored)
    else if ended && !d.Final() then Verdict(Term, failures, stored)
    else Verdict(NakWithDelay, failures, stored)
  }

  function Conclude(r: Settled, d: Delivery): Verdict {
    if r.unwound then Recover(d, r.stored || r.scope.failures != [], r.scope.failures, r.stored)
    else Verdict(ActionOf(r.res.disposition), r.scope.failures, r.stored)
  }

  function HandedBackInput(v: Visit): Input {
    Input(INTERRUPTED_CONTEXT, false, Some(HANDED_BACK), v.h.publisher)
  }

  function HandBack(v: Visit, d: Delivery): Verdict {
    Verdict(Nak,
            if d.Final() then
              SettleMessage(TRANSPORT, Some(d), HandedBackInput(v), v.panics).scope.failures
            else [],
            false)
  }

  function Handle(v: Visit, d: Delivery): Verdict {
    if v.handBack then HandBack(v, d)
    else if AtDecode in v.panics then Recover(d, false, [], false)
    else if v.undecodable.Some? then
      Conclude(SettleMessage(TRANSPORT, Some(d),
                             Input(v.h.atSettle, false, Some(WrapDecodeError(v.undecodable.value)), v.h.publisher),
                             v.panics), d)
    else
      var (s, unwound) := InvokeEnd(TRANSPORT, v.h.atEnd, Some(d), v.h.err, v.panics);
      if unwound then Recover(d, false, s.failures, false)
      else
        var err := if v.h.err.None? then None else Some(WrapInterrupted(v.h.atWrap, v.h.err.value));
        Conclude(SettleMessage(s, Some(d), Input(v.h.atSettle, true, err, v.h.publisher), v.panics), d)
  }

  class SettleGuard {
    var ended: bool

    constructor ()
      ensures !ended
    {
      ended := false;
    }
  }

  /** The message callback with its flags: acted is set before every broker action, ended by the
      wrapped publisher and the wrapped observer. */
  method MsgHandler(v: Visit, d: Delivery) returns (actions: seq<Action>, failures: seq<FailureReport>)
    ensures actions == [Handle(v, d).action]
    ensures failures == Handle(v, d).failures
  {
    var acted := false;
    var guard := new SettleGuard();
    actions, failures := [], [];
    var unwound := false;
    if v.handBack {
      acted := true;
      actions := actions + [Nak];
      if d.Final() {
        var r := SettleMessage(TRANSPORT, Some(d), HandedBackInput(v), v.panics);
        failures := r.scope.failures;
        unwound := r.unwound;
      }
    } else if AtDecode in v.panics {
      unwound := true;
    } else {
      var scope := TRANSPORT;
      var err := v.undecodable;
      if err.Some? {
        err := Some(WrapDecodeError(err.value));
      } else {
        var t := InvokeEnd(scope, v.h.atEnd, Some(d), v.h.err, v.panics);
        scope, unwound := t.0, t.1;
        if v.h.err.Some? {
          err := Some(WrapInterrupted(v.h.atWrap, v.h.err.value));
        }
      }
      if !unwound {
        var r := SettleMessage(scope, Some(d), Input(v.h.atSettle, v.undecodable.None?, err, v.h.publisher), v.panics);
        failures := r.scope.failures;
        guard.ended := r.stored || r.scope.failures != [];
        unwound := r.unwound;
        if !unwound {
          acted := true;
          actions := actions + [ActionOf(r.res.disposition)];
        }
      }
    }
    // The deferred recover.
    if unwound && !acted {
      acted := true;
      if d.Final() && !guard.ended {
        failures := failures + [DroppedByPanic()];
        actions := actions + [Term];
      } else if guard.ended && !d.Final() {
        actions := actions + [Term];
      } else {
        actions := actions + [NakWithDelay];
      }
    }
  }

  // ---------- one delivery ----------

  /** What a Settle body can do to a scope that has not reported, panics included. */
  ghost predicate Bounded(s: Scope, d: Delivery, r: Settled) {
    && r.scope.pending == s.pending && r.scope.flushed == s.flushed && r.scope.handlerDone == s.handlerDone
    && (r.scope.failures == s.failures || |r.scope.failures| == |s.failures| + 1)
    && (!r.unwound ==>
          && r.res.disposition.Some?
          && (r.res.outcome == NoOutcome <==> r.scope.failures == s.failures)
          && (r.stored ==> r.res.disposition == Some(Terminal))
          && (r.res.disposition == Some(Terminal) ==> r.res.outcome != NoOutcome)
          && (r.res.disposition in {Some(Retry), Some(RetryDelayed)} ==> (r.res.outcome == NoOutcome <==> !d.Final())))
  }

  lemma FinishBounded(s: Scope, input: Input, res: Settlement, err: Error, stored: bool, panics: set<Point>)
    requires !s.reported
    ensures var r := Finish(s, input, res, err, stored, panics);
            && (r.unwound || r.res == res) && r.stored == stored
            && |r.scope.failures| == |s.failures| + 1
            && r.scope == s.(reported := true, failures := r.scope.failures)
  {
  }

  lemma InterruptedBounded(s: Scope, d: Delivery, input: Input, e: Error, panics: set<Point>)
    requires !s.reported
    ensures var r := SettleInterrupted(s, d, input, e, panics);
            Bounded(s, d, r) && !r.stored && (!r.unwound ==> r.res.disposition == Some(Retry))
            && (d.Final() ==> r.scope.failures != s.failures)
  {
    var w := Wrapped([e]);
    FinishBounded(s, input, Settlement(Some(Retry), INTERRUPTED, InterruptedOutcome, Some(w)), w, false, panics);
  }

  lemma TerminalBounded(s: Scope, d: Delivery, input: Input, e: Error, reason: string, panics: set<Point>)
    requires !s.reported
    ensures var r := SettleTerminal(s, d, input, e, reason, panics);
            Bounded(s, d, r)
            && (!r.unwound ==> r.res.disposition in {Some(Terminal), Some(RetryDelayed)})
  {
    if input.publisher.None? {
      FinishBounded(s, input, Settlement(Some(Terminal), reason, DroppedOutcome, Some(e)), e, false, panics);
    } else {
      var err := Publish.Loop(input.publisher.value, d.Final()).err;
      if err.None? {
        var done := Lettered(Some(e), reason);
        FinishBounded(s, input, Settlement(Some(Terminal), reason, LetteredOutcome, Some(done)), done, true, panics);
      } else {
        var failed := LetterFailed(Some(e), reason, err);
        var res := Settlement(Some(RetryDelayed), reason, PublishFailedOutcome, Some(failed));
        FinishBounded(s, input, res, failed, false, panics);
      }
    }
  }

  lemma BodyBounded(s: Scope, d: Delivery, input: Input, e: Error, v: View, panics: set<Point>)
    requires !s.reported && Sensible(v, d)
    ensures var r := SettleBody(s, d, input, e, v, panics);
            Bounded(s, d, r)
            && (!r.unwound && r.res.disposition == Some(Ack) && r.res.outcome == NoOutcome ==> v.duplicate)
  {
    if !input.evt && v.decode && AtDecodeFailed in panics {
    } else if v.interrupted {
      InterruptedBounded(s, d, input, e, panics);
    } else if v.disposition == Ack {
      FinishBounded(s, input, Settlement(Some(Ack), v.reason, LetteredOutcome, Some(e)), e, false, panics);
    } else if v.disposition == RetryDelayed {
      var res := Settlement(Some(RetryDelayed), v.reason, PublishFailedOutcome, Some(e));
      FinishBounded(s, input, res, e, false, panics);
    } else {
      TerminalBounded(s, d, input, e, v.reason, panics);
    }
  }

  /** A success, or a duplicate. */
  predicate QuietCause(v: Visit) {
    if v.undecodable.Some? then Is(WrapDecodeError(v.undecodable.value), Duplicate)
    else v.h.err.None? || Is(WrapInterrupted(v.h.atWrap, v.h.err.value), Duplicate)
  }

  /** The facts about one delivery the life of a message needs. quiet: a success or a duplicate;
      calm: nothing panicked. */
  ghost predicate SoundVerdict(r: Verdict, d: Delivery, quiet: bool, calm: bool) {
    && |r.failures| <= 1
    // A message that comes back was neither reported nor stored.
    && (r.action in {Nak, NakWithDelay} && !d.Final() ==> r.failures == [] && !r.stored)
    // A message that ends was reported, was stored, or is a quiet success or duplicate.
    && (r.action == Term || d.Final() ==> r.failures != [] || r.stored || r.action == AckMsg)
    && (r.action == AckMsg && r.failures == [] ==> !r.stored && quiet)
    && (calm && (r.stored || r.action == Term || (d.Final() && r.action != AckMsg)) ==> |r.failures| == 1)
  }

  ghost predicate Sound(v: Visit, d: Delivery) {
    SoundVerdict(Handle(v, d), d, QuietCause(v), v.panics == {})
  }

  /** The end of a Settle call, as far as its verdict depends on it. */
  ghost predicate Ends(r: Settled, d: Delivery, quiet: bool, calm: bool) {
    && |r.scope.failures| <= 1
    && (calm ==> !r.unwound)
    && (!r.unwound ==>
          && r.res.disposition.Some?
          && (r.res.outcome == NoOutcome <==> r.scope.failures == [])
          && (r.stored ==> r.res.disposition == Some(Terminal))
          && (r.res.disposition == Some(Terminal) ==> r.res.outcome != NoOutcome)
          && (r.res.disposition in {Some(Retry), Some(RetryDelayed)} ==> (r.res.outcome == NoOutcome <==> !d.Final()))
          && (r.res.disposition == Some(Ack) && r.res.outcome == NoOutcome ==> quiet))
  }

  lemma ConcludeIsSound(r: Settled, d: Delivery, quiet: bool, calm: bool)
    requires Ends(r, d, quiet, calm)
    ensures SoundVerdict(Conclude(r, d), d, quiet, calm)
  {
  }

  lemma SettleEnds(s: Scope, d: Delivery, input: Input, panics: set<Point>)
    requires s.failures == [] && !s.reported && !s.flushed && input.err.Some?
    ensures Ends(SettleMessage(s, Some(d), input, panics), d, Is(input.err.value, Duplicate), panics == {})
  {
    var v := Examine(input.sub, d, input.err.value);
    ExamineIsSensible(input.sub, d, input.err.value);
    BodyBounded(s, d, input, input.err.value, v, panics);
    BodyCalm(s, d, input, input.err.value, v);
    FlushKeeps(SettleBody(s, d, input, input.err.value, v, panics).scope,
               HandlerDoneOutcome(SettleBody(s, d, input, input.err.value, v, panics).res));
  }

  lemma FlushKeeps(s: Scope, o: Outcome)
    ensures Flush(s, o).failures == s.failures
  {
  }

  /** Nothing unwinds when nothing panics. */
  lemma BodyCalm(s: Scope, d: Delivery, input: Input, e: Error, v: View)
    ensures !SettleBody(s, d, input, e, v, {}).unwound
  {
  }

  lemma HandedBackIsInterrupted()
    ensures IsInterrupted(INTERRUPTED_CONTEXT, HANDED_BACK)
  {
    PlainAlone(Canceled);
    WrapAddsOneSentinel(ShutdownInterrupted, Plain(Canceled));
  }

  lemma HandBackSound(v: Visit, d: Delivery)
    requires v.handBack
    ensures Sound(v, d)
  {
    if d.Final() {
      var input := HandedBackInput(v);
      HandedBackIsInterrupted();
      HandedBackDecodes();
      InterruptedBounded(TRANSPORT, d, input, HANDED_BACK, v.panics);
      var w := Examine(INTERRUPTED_CONTEXT, d, HANDED_BACK);
      var b := SettleBody(TRANSPORT, d, input, HANDED_BACK, w, v.panics);
      FlushKeeps(b.scope, HandlerDoneOutcome(b.res));
      SettleOnce(d, input, v.panics);
    }
  }

  lemma SettleOnce(d: Delivery, input: Input, panics: set<Point>)
    requires input.err.Some?
    ensures var w := Examine(input.sub, d, input.err.value);
            var b := SettleBody(TRANSPORT, d, input, input.err.value, w, panics);
            SettleMessage(TRANSPORT, Some(d), input, panics).scope == Flush(b.scope, HandlerDoneOutcome(b.res))
  {
  }

  lemma HandedBackDecodes()
    ensures !IsDecode(HANDED_BACK)
  {
    PlainAlone(Canceled);
    WrapAddsOneSentinel(ShutdownInterrupted, Plain(Canceled));
  }

  lemma UndecodableSound(v: Visit, d: Delivery)
    requires !v.handBack && AtDecode !in v.panics && v.undecodable.Some?
    ensures Sound(v, d)
  {
    var input := Input(v.h.atSettle, false, Some(WrapDecodeError(v.undecodable.value)), v.h.publisher);
    SettleEnds(TRANSPORT, d, input, v.panics);
    ConcludeIsSound(SettleMessage(TRANSPORT, Some(d), input, v.panics), d, QuietCause(v), v.panics == {});
  }

  lemma HandledSound(v: Visit, d: Delivery)
    requires !v.handBack && AtDecode !in v.panics && v.undecodable.None?
    ensures Sound(v, d)
  {
    var (s, unwound) := InvokeEnd(TRANSPORT, v.h.atEnd, Some(d), v.h.err, v.panics);
    InvokeKeeps(v.h.atEnd, d, v.h.err, v.panics);
    if !unwound && v.h.err.Some? {
      var input := Input(v.h.atSettle, true, Some(WrapInterrupted(v.h.atWrap, v.h.err.value)), v.h.publisher);
      SettleEnds(s, d, input, v.panics);
      ConcludeIsSound(SettleMessage(s, Some(d), input, v.panics), d, QuietCause(v), v.panics == {});
    }
  }

  lemma InvokeKeeps(ctx: Context, d: Delivery, err: Option<Error>, panics: set<Point>)
    ensures var (s, unwound) := InvokeEnd(TRANSPORT, ctx, Some(d), err, panics);
            && s.failures == [] && !s.reported && !s.flushed && (panics == {} ==> !unwound)
  {
  }

  lemma EveryVisitIsSound(v: Visit, d: Delivery)
    ensures Sound(v, d)
  {
    if v.handBack {
      HandBackSound(v, d);
    } else if AtDecode in v.panics {
    } else if v.undecodable.Some? {
      UndecodableSound(v, d);
    } else {
      HandledSound(v, d);
    }
  }

  /** Without panics a handled message whose Failure was reported gets the broker action its
      outcome calls for, and one without a Failure is acknowledged or comes back. */
  lemma ReportNamesAction(v: Visit, d: Delivery)
    requires !v.handBack && v.undecodable.None? && v.panics == {}
    ensures var r := Handle(v, d);
            if r.failures == [] then r.action == AckMsg || (r.action in {Nak, NakWithDelay} && !d.Final())
            else match r.action
                 case Nak => r.failures[0].outcome == InterruptedOutcome
                 case NakWithDelay => r.failures[0].outcome == PublishFailedOutcome
                 case AckMsg => r.failures[0].outcome == LetteredOutcome
                 case Term => r.failures[0].outcome in {LetteredOutcome, DroppedOutcome}
  {
    InvokeKeeps(v.h.atEnd, d, v.h.err, {});
    if v.h.err.Some? {
      var s := InvokeEnd(TRANSPORT, v.h.atEnd, Some(d), v.h.err, {}).0;
      var err := WrapInterrupted(v.h.atWrap, v.h.err.value);
      SettleIsTidy(s, Some(d), Input(v.h.atSettle, true, Some(err), v.h.publisher));
    }
  }

  // ---------- exactly which broker action ----------

  /** What the delivery asks Settle about: nothing after a success. */
  function SettledError(v: Visit): Option<Error> {
    if v.undecodable.Some? then Some(WrapDecodeError(v.undecodable.value))
    else if v.h.err.Some? then Some(WrapInterrupted(v.h.atWrap, v.h.err.value))
    else None
  }

  /** The message does not go on for good: given back, or it counts as interrupted. */
  predicate GivenBack(v: Visit) {
    v.handBack || (SettledError(v).Some? && IsInterrupted(v.h.atSettle, SettledError(v).value))
  }

  /** The broker action of a delivery without panics. */
  ghost predicate ActsFor(v: Visit, d: Delivery, r: Verdict) {
    var open := !GivenBack(v);
    var e := if SettledError(v).Some? then SettledError(v).value else HANDED_BACK;
    var failed := SettledError(v).Some? && !AlreadySettled(e);
    var ends := failed && !Is(e, DeadLetterFailed) && EndsMessage(e, d);
    && (r.action == Nak <==> !open)
    && (r.action == AckMsg <==> open && !failed)
    && (r.action == Term <==> open && ends && !Refuses(v.h.publisher, d))
    && (r.action == NakWithDelay <==> open && failed && (!ends || Refuses(v.h.publisher, d)))
    && (r.stored <==> open && ends && Publishes(v.h.publisher, d))
  }

  lemma SettledActs(s: Scope, d: Delivery, input: Input, v: Visit)
    requires !v.handBack
    requires input.err == SettledError(v) && input.sub == v.h.atSettle && input.publisher == v.h.publisher
    ensures ActsFor(v, d, Conclude(SettleMessage(s, Some(d), input, {}), d))
  {
    hide EndsMessage, AlreadySettled, Is, Publish.Loop, SettleBody, WrapDecodeError, WrapInterrupted;
    if input.err.Some? {
      BodyAnswers(s, d, input, input.err.value);
    }
  }

  /** Without panics: a message is given back at once if and only if the bus handed it back or its
      error counts as interrupted; it is acknowledged if and only if it succeeded, was a duplicate or
      was dead-lettered before; ended if and only if its error ends it here and the publisher, if there
      is one, stored it; and comes back with a delay in every other case. */
  lemma ActionExactly(v: Visit, d: Delivery)
    requires v.panics == {}
    ensures ActsFor(v, d, Handle(v, d))
  {
    hide ActsFor, SettleMessage;
    if v.handBack {
      HandBackActs(v, d);
    } else if v.undecodable.Some? {
      SettledActs(TRANSPORT, d, Input(v.h.atSettle, false, SettledError(v), v.h.publisher), v);
    } else {
      InvokeKeeps(v.h.atEnd, d, v.h.err, {});
      var s := InvokeEnd(TRANSPORT, v.h.atEnd, Some(d), v.h.err, {}).0;
      SettledActs(s, d, Input(v.h.atSettle, true, SettledError(v), v.h.publisher), v);
    }
  }

  lemma HandBackActs(v: Visit, d: Delivery)
    requires v.handBack
    ensures ActsFor(v, d, Handle(v, d))
  {
  }

  /** Without panics a message that cannot be decoded is reported as such, unless its dead letter failed;
      and one handed back on its last delivery as interrupted. */
  lemma ReportsOfUnhandled(v: Visit, d: Delivery)
    requires v.panics == {} && Handle(v, d).failures != []
    ensures var r := Handle(v, d);
            && (v.handBack ==> r.failures[0].outcome == InterruptedOutcome && r.failures[0].reason == INTERRUPTED)
            && (!v.handBack && v.undecodable.Some? ==>
                  r.failures[0].outcome
                  == (if r.action == NakWithDelay then PublishFailedOutcome else DecodeFailedOutcome))
  {
    if v.handBack {
      HandedBackReported(v, d);
    } else if v.undecodable.Some? {
      UndecodableReported(v, d);
    }
  }

  lemma HandedBackReported(v: Visit, d: Delivery)
    requires v.panics == {} && v.handBack && d.Final()
    ensures var f := Handle(v, d).failures;
            |f| == 1 && f[0].outcome == InterruptedOutcome && f[0].reason == INTERRUPTED
  {
    hide ReasonOf, Dispose;
    HandedBackIsInterrupted();
    HandedBackDecodes();
    StillNoDecode(HANDED_BACK);
  }

  lemma StillNoDecode(e: Error)
    ensures IsDecode(Wrapped([e])) <==> IsDecode(e)
  {
    assert [e][1..] == [] && NodesOf([e]) == Nodes(e) + NodesOf([]);
    assert Nodes(e) + [] == Nodes(e) && Nodes(Wrapped([e])) == [Wrapped([e])] + Nodes(e);
    DecodeConcat([Wrapped([e])], Nodes(e));
  }

  lemma UndecodableReported(v: Visit, d: Delivery)
    requires v.panics == {} && !v.handBack && v.undecodable.Some? && Handle(v, d).failures != []
    ensures var r := Handle(v, d);
            r.failures[0].outcome == (if r.action == NakWithDelay then PublishFailedOutcome else DecodeFailedOutcome)
  {
    hide ReasonOf, Dispose, IsDecode, Is, WrapDecodeError, Publish.Loop;
    var e := WrapDecodeError(v.undecodable.value);
    WrappedDecodes(v.undecodable.value, Duplicate);
    StillNoDecode(e);
    LetteredDecodes(e, ReasonOf(e));
    ExamineIsSensible(v.h.atSettle, d, e);
  }

  lemma LetteredDecodes(e: Error, reason: string)
    requires IsDecode(e)
    ensures IsDecode(Lettered(Some(e), reason))
  {
    LetteredNodes(e, reason);
    DecodeConcat([Lettered(Some(e), reason), Plain(DeadLettered)], Nodes(e));
  }

  /** The callback unwound before, or after, the message was stored or reported. */
  predicate Unwinds(v: Visit, d: Delivery) {
    !v.handBack
    && (AtDecode in v.panics
        || (if v.undecodable.Some? then
              var input := Input(v.h.atSettle, false, SettledError(v), v.h.publisher);
              SettleMessage(TRANSPORT, Some(d), input, v.panics).unwound
            else
              var input := Input(v.h.atSettle, true, SettledError(v), v.h.publisher);
              var (s, unwound) := InvokeEnd(TRANSPORT, v.h.atEnd, Some(d), v.h.err, v.panics);
              unwound || SettleMessage(s, Some(d), input, v.panics).unwound))
  }

  /** A panic outside the handler: the message comes back with a delay as long as it was neither stored
      nor reported and deliveries are left; on the last one it is reported as dropped by a panic, and
      ended. After it was stored or reported it is ended, unless nothing follows anyway. */
  lemma PanicActsExactly(v: Visit, d: Delivery)
    requires Unwinds(v, d)
    ensures var r := Handle(v, d);
            && r.action in {Term, NakWithDelay}
            && (!d.Final() ==> (r.action == Term <==> r.stored || r.failures != []))
            && (d.Final() ==>
                  if r.action == Term then
                    !r.stored && r.failures == [FailureReport(DroppedOutcome, PANIC, Panicked(0))]
                  else r.stored || r.failures != [])
  {
    hide SettleBody, Examine, OutcomeOf;
    if AtDecode !in v.panics {
      if v.undecodable.Some? {
      } else {
        InvokeKeeps(v.h.atEnd, d, v.h.err, v.panics);
      }
    }
  }

  // ---------- the whole life ----------

  /** A finished life: the last broker action, every Failure reported on the way, how often the
      bus publisher stored the message, and the last delivery that was made. */
  datatype Ending = Ending(last: Action, failures: seq<FailureReport>, stored: nat, deliveries: nat)

  /** Deliveries count, count + 1, ... until a broker action ends the message or max is reached. */
  function LifeOf(verdict: nat -> Verdict, count: nat, max: nat): Ending
    requires 1 <= count <= max
    decreases max - count
  {
    var r := verdict(count);
    var stored := if r.stored then 1 else 0;
    if r.action in {AckMsg, Term} || count == max then Ending(r.action, r.failures, stored, count)
    else
      var rest := LifeOf(verdict, count + 1, max);
      Ending(rest.last, r.failures + rest.failures, stored + rest.stored, rest.deliveries)
  }

  function Verdicts(script: nat -> Visit, max: nat): nat -> Verdict {
    (i: nat) => Handle(script(i), Delivery(i, max))
  }

  function Life(script: nat -> Visit, max: nat): Ending
    requires max > 0
  {
    LifeOf(Verdicts(script, max), 1, max)
  }

  /** Sound deliveries make a sound life. */
  lemma {:induction false} SoundLife(verdict: nat -> Verdict, quiet: nat -> bool, calm: bool, count: nat, max: nat)
    requires 1 <= count <= max
    requires forall i: nat :: SoundVerdict(verdict(i), Delivery(i, max), quiet(i), calm)
    ensures var e := LifeOf(verdict, count, max);
            && |e.failures| <= 1 && e.stored <= 1
            && count <= e.deliveries <= max
            && (e.failures == [] && e.stored == 0 ==> e.last == AckMsg && quiet(e.deliveries))
            && (calm && (e.stored > 0 || e.last != AckMsg) ==> |e.failures| == 1)
    decreases max - count
  {
    var r := verdict(count);
    assert SoundVerdict(r, Delivery(count, max), quiet(count), calm);
    if !(r.action in {AckMsg, Term} || count == max) {
      SoundLife(verdict, quiet, calm, count + 1, max);
    }
  }

  /** A delivery that gives the message back while another one follows never reports and never
      stores it, whatever panics: so a reported or stored message never comes back. */
  lemma NakNeverReports(v: Visit, d: Delivery)
    requires Handle(v, d).action in {Nak, NakWithDelay} && !d.Final()
    ensures Handle(v, d).failures == [] && !Handle(v, d).stored
  {
    EveryVisitIsSound(v, d);
  }

  /** For every script of decode, handler and publisher results, context ends, hand-backs and
      panics: at most one Failure and at most one stored record over all deliveries, and the
      message ends in a quiet Ack, or with exactly one Failure, or stored by the bus publisher. */
  lemma LifeWithPanics(script: nat -> Visit, max: nat)
    requires max > 0
    ensures var e := Life(script, max);
            && |e.failures| <= 1 && e.stored <= 1
            && 1 <= e.deliveries <= max
            && (e.failures == [] && e.stored == 0 ==> e.last == AckMsg && QuietCause(script(e.deliveries)))
  {
    var verdict := Verdicts(script, max);
    var quiet := (i: nat) => QuietCause(script(i));
    forall i: nat ensures SoundVerdict(verdict(i), Delivery(i, max), quiet(i), false) {
      EveryVisitIsSound(script(i), Delivery(i, max));
      Weaken(verdict(i), Delivery(i, max), quiet(i), script(i).panics == {});
    }
    SoundLife(verdict, quiet, false, 1, max);
  }

  lemma Weaken(r: Verdict, d: Delivery, quiet: bool, calm: bool)
    requires SoundVerdict(r, d, quiet, calm)
    ensures SoundVerdict(r, d, quiet, false)
  {
  }

  /** Without panics the message ends in a quiet Ack, a success or a duplicate, with no Failure
      at all, or with exactly one Failure; a stored message is always reported. */
  lemma LifeReportsExactlyOnce(script: nat -> Visit, max: nat)
    requires max > 0
    requires forall i: nat :: script(i).panics == {}
    ensures var e := Life(script, max);
            && (|e.failures| == 1
                || (e.failures == [] && e.stored == 0 && e.last == AckMsg && QuietCause(script(e.deliveries))))
  {
    var verdict := Verdicts(script, max);
    var quiet := (i: nat) => QuietCause(script(i));
    forall i: nat ensures SoundVerdict(verdict(i), Delivery(i, max), quiet(i), true) {
      EveryVisitIsSound(script(i), Delivery(i, max));
      assert script(i).panics == {};
    }
    SoundLife(verdict, quiet, true, 1, max);
  }
}
