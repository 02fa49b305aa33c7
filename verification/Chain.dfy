/** The dead-letter invoker (invoker/dlq.go) around Retry around the circuit breaker, and then the
    transport's own Settle with the same publisher: one delivery, two places that may publish. */
module Chain {
  import opened Base
  import opened Errors
  import opened Publish
  import opened Settle
  import Message
  import Retry

  /** What DLQ.Invoke returns for the inner error, and whether its publisher stored a record. */
  function DeadLetter(err: Option<Error>, ctx: Context, d: Option<Delivery>, p: Option<Publisher>)
    : (Option<Error>, bool)
  {
    if err.None? || p.None? || IsInterrupted(ctx, err.value) then (err, false)
    else if Dispose(err, Effective(d)) != Terminal then (err, false)
    else
      var r := Loop(p.value, Effective(d).Final());
      var reason := ReasonOf(err.value);
      if r.err.None? then (Some(Lettered(err, reason)), true)
      else (Some(LetterFailed(err, reason, r.err)), false)
  }

  /** A failure never comes back as success, a dead letter comes back only when a record was
      stored, and the original error stays in the tree. */
  lemma FailureNeverTurnsNil(err: Option<Error>, ctx: Context, d: Option<Delivery>, p: Option<Publisher>)
    ensures var (out, stored) := DeadLetter(err, ctx, d, p);
            && (out.None? <==> err.None?)
            && (stored ==> err.Some? && Is(out.value, DeadLettered) && !Is(err.value, DeadLettered))
            && (err.Some? ==> forall s :: Is(err.value, s) ==> Is(out.value, s))
  {
    if err.Some? && p.Some? {
      var r := Loop(p.value, Effective(d).Final());
      DeadLetterMatches(err.value, ReasonOf(err.value), if r.err.Some? then r.err.value else err.value);
    }
  }

  /** Exactly when the chain stores a record: the error does not count as interrupted, nobody settled it
      before, it ends the message on this delivery, and the publisher accepts. It publishes in no other
      case, and then returns the error as it is. */
  lemma ChainStoresExactly(err: Option<Error>, ctx: Context, d: Option<Delivery>, p: Option<Publisher>)
    ensures var (out, stored) := DeadLetter(err, ctx, d, p);
            var tries := err.Some? && p.Some? && !IsInterrupted(ctx, err.value) && !AlreadySettled(err.value)
                         && !Is(err.value, DeadLetterFailed) && EndsMessage(err.value, Effective(d));
            && (stored <==> tries && Publishes(p, Effective(d)))
            && (!tries ==> out == err)
            && (tries ==> out.Some? && Is(out.value, if stored then DeadLettered else DeadLetterFailed))
  {
    hide EndsMessage, AlreadySettled, Dispose, Loop, Is;
    if err.Some? {
      DisposeExactly(err.value, Effective(d));
      var perr := if p.Some? then Loop(p.value, Effective(d).Final()).err else None;
      DeadLetterMatches(err.value, ReasonOf(err.value), if perr.Some? then perr.value else err.value);
    }
  }

  /** One delivery: how Retry ended, the context the dead-letter invoker sees, its publisher, and
      the rest of the handling. */
  datatype Delivered = Delivered(inner: Option<Error>, ctx: Context, chain: Option<Publisher>, h: Handled)

  /** The handled message the transport sees. */
  function Outside(x: Delivered, d: Option<Delivery>): Handled {
    x.h.(err := DeadLetter(x.inner, x.ctx, d, x.chain).0)
  }

  /** A settlement that already knows a dead letter, or a failed one, never publishes, whatever
      panics. */
  lemma KnownDeadLetterIsNotPublished(s: Scope, d: Option<Delivery>, input: Input, panics: set<Point>)
    requires input.err.Some? && (Is(input.err.value, DeadLettered) || Is(input.err.value, DeadLetterFailed))
    ensures !SettleMessage(s, d, input, panics).stored
  {
    var v := Examine(input.sub, Effective(d), input.err.value);
    assert v.disposition in {Ack, RetryDelayed};
    UnpublishedBody(s, Effective(d), input, input.err.value, v, panics);
  }

  lemma UnpublishedBody(s: Scope, d: Delivery, input: Input, e: Error, v: View, panics: set<Point>)
    requires v.disposition in {Ack, RetryDelayed}
    ensures !SettleBody(s, d, input, e, v, panics).stored
  {
  }

  /** In one delivery at most one of the two places stores a record: for every handler error tree,
      every publish error tree, every publisher and every moment the contexts may end. */
  lemma StoredAtMostOnce(x: Delivered, d: Option<Delivery>)
    ensures !(DeadLetter(x.inner, x.ctx, d, x.chain).1 && HandleOnce(Outside(x, d), d).stored)
  {
    var (out, stored) := DeadLetter(x.inner, x.ctx, d, x.chain);
    if stored {
      FailureNeverTurnsNil(x.inner, x.ctx, d, x.chain);
      var h := Outside(x, d);
      TransportErrorKeeps(h, out.value, DeadLettered);
      var s := InvokeEnd(TRANSPORT, h.atEnd, d, h.err, {}).0;
      KnownDeadLetterIsNotPublished(s, d, Input(h.atSettle, true, Some(TransportError(h, out.value)), h.publisher), {});
    }
  }

  /** A failed dead letter of the chain is not tried again by the transport. */
  lemma FailedDeadLetterIsNotRepeated(x: Delivered, d: Option<Delivery>)
    requires var out := DeadLetter(x.inner, x.ctx, d, x.chain).0; out.Some? && Is(out.value, DeadLetterFailed)
    ensures !HandleOnce(Outside(x, d), d).stored
  {
    var out := DeadLetter(x.inner, x.ctx, d, x.chain).0;
    var h := Outside(x, d);
    TransportErrorKeeps(h, out.value, DeadLetterFailed);
    var s := InvokeEnd(TRANSPORT, h.atEnd, d, h.err, {}).0;
    KnownDeadLetterIsNotPublished(s, d, Input(h.atSettle, true, Some(TransportError(h, out.value)), h.publisher), {});
  }

  /** The chain DLQ(Retry(CircuitBreaker(handler))) and then Settle, for every script: the handler
      runs at most max(MaxAttempts, 1) times, at most one record is stored, HandlerDone is emitted
      once and Failure at most once. */
  lemma OneDelivery(p: Retry.Policy, s: Retry.Script, n: nat, e: Retry.End, x: Delivered, d: Option<Delivery>)
    requires n >= 1 && Retry.Explains(p, s, n, e) && x.inner == Retry.EndError(e)
    ensures Retry.Runs(s, n) <= Retry.Budget(p)
    ensures !(DeadLetter(x.inner, x.ctx, d, x.chain).1 && HandleOnce(Outside(x, d), d).stored)
    ensures var r := HandleOnce(Outside(x, d), d);
            |r.scope.handlerDone| == 1 && |r.scope.failures| <= 1
            && (e.Success? ==> r.scope.failures == [] && r.res.disposition == Some(Ack))
  {
    Retry.AttemptsAreHandlerRuns(p, s, n, e);
    StoredAtMostOnce(x, d);
    SignalsExactlyOnce(Outside(x, d), d);
  }

  /** The dead-letter record of Retry's own failure carries its attempt count and reason: wrapping
      for the dead letter hides neither. */
  lemma RecordKeepsAttempts(cause: Error, reason: string, attempts: nat, history: seq<Attempt>)
    ensures AttemptsOf(Failure(Some(cause), reason, attempts, history)) == attempts
    ensures AttemptsOf(Lettered(Some(Failure(Some(cause), reason, attempts, history)), reason)) == attempts
  {
    var f := Failure(Some(cause), reason, attempts, history);
    var d := Lettered(Some(f), reason);
    FirstIsHead(Nodes(f), IsFailure);
    LetteredNodes(f, reason);
    assert [d, Plain(DeadLettered)][1..] == [Plain(DeadLettered)] && [Plain(DeadLettered)][1..] == [];
    FirstSkips([d, Plain(DeadLettered)], Nodes(f), IsFailure);
  }

  /** What Retry calls terminal the transport calls terminal too, on every delivery: the chain
      dead-letters it at once, and stores it when its publisher does. */
  lemma TerminalAttemptIsDeadLettered(
      cause: Error, attempts: nat, history: seq<Attempt>, ctx: Context, d: Option<Delivery>, p: Publisher)
    requires Retry.Classify(cause).1 && Loop(p, Effective(d).Final()).err.None?
    ensures var e := Failure(Some(cause), TERMINAL, attempts, history);
            && Dispose(Some(e), Effective(d)) == Terminal
            && DeadLetter(Some(e), ctx, d, Some(p)) == (Some(Lettered(Some(e), ReasonOf(e))), true)
  {
    var e := Failure(Some(cause), TERMINAL, attempts, history);
    Retry.ClassifyExactly(cause);
    FailureMatches(cause, TERMINAL, attempts, history, SendToDLQ);
    FailureMatches(cause, TERMINAL, attempts, history, Duplicate);
    FailureMatches(cause, TERMINAL, attempts, history, DeadLettered);
    FailureMatches(cause, TERMINAL, attempts, history, DeadLetterFailed);
    FailureMatches(cause, TERMINAL, attempts, history, Canceled);
    FailureMatches(cause, TERMINAL, attempts, history, DeadlineExceeded);
    DisposeExactly(e, Effective(d));
  }

  lemma ContextErrorKept(x: Delivered, d: Option<Delivery>)
    requires DeadLetter(x.inner, x.ctx, d, x.chain).1
    ensures var out := DeadLetter(x.inner, x.ctx, d, x.chain).0.value;
            ContextError(TransportError(Outside(x, d), out)) <==> ContextError(x.inner.value)
  {
    var e := x.inner.value;
    var out := DeadLetter(x.inner, x.ctx, d, x.chain).0.value;
    DeadLetterMatches(e, ReasonOf(e), e);
    TransportErrorKeeps(Outside(x, d), out, Canceled);
    TransportErrorKeeps(Outside(x, d), out, DeadlineExceeded);
  }

  /** The broker redelivers the message after this settlement. */
  predicate ComesBack(res: Settlement, d: Option<Delivery>) {
    res.disposition in {Some(Retry), Some(RetryDelayed)} && !Effective(d).Final()
  }

  /** Exactly when a message the chain dead-lettered and stored is given back instead of acknowledged:
      when the handler's error holds a context error and the subscription ended after the chain saw it.
      It comes back if deliveries are left. */
  lemma StoredComesBackExactly(x: Delivered, d: Option<Delivery>)
    requires DeadLetter(x.inner, x.ctx, d, x.chain).1
    ensures HandleOnce(Outside(x, d), d).res.disposition
            == if x.h.atSettle.done && ContextError(x.inner.value) then Some(Retry) else Some(Ack)
    ensures ComesBack(HandleOnce(Outside(x, d), d).res, d)
            <==> x.h.atSettle.done && ContextError(x.inner.value) && !Effective(d).Final()
    ensures ContextError(x.inner.value) ==> !x.ctx.done
  {
    var out := DeadLetter(x.inner, x.ctx, d, x.chain).0.value;
    var h := Outside(x, d);
    FailureNeverTurnsNil(x.inner, x.ctx, d, x.chain);
    ContextErrorKept(x, d);
    TransportErrorKeeps(h, out, DeadLettered);
    InvokeEndsOnce(h.atEnd, d, h.err);
    var s := InvokeEnd(TRANSPORT, h.atEnd, d, h.err, {}).0;
    DeadLetteredIsAckedUnlessInterrupted(s, d, Input(h.atSettle, true, Some(TransportError(h, out)), h.publisher));
  }

  /** A permanent error around the error of a cancelled call. */
  const PERMANENT := Marked(Some(true), Some(false), Some(Plain(Canceled)))
  /** A publisher that stores at once. */
  const STORES := Publisher((i: nat) => None, (i: nat) => false)

  lemma PermanentFacts()
    ensures ContextError(PERMANENT) && TerminalMethod(PERMANENT)
    ensures forall s :: Is(PERMANENT, s) <==> s == Canceled
  {
    var c := Plain(Canceled);
    PlainAlone(Canceled);
    assert Under(PERMANENT) == Nodes(c);
    assert Nodes(PERMANENT) == [PERMANENT, c];
    assert c in Nodes(PERMANENT) && Matches(c, Canceled);
    FirstIsHead(Nodes(PERMANENT), HasTerminal);
  }

  /** Such a message: on delivery 1 of 5 the handler fails for good with the error of a cancelled
      call, the chain stores the record while the subscription is alive, and the subscription ends
      before Settle. The record is stored, and the message comes back. */
  lemma DeadLetteredCanComeBack()
    ensures var calm := Context(false, None);
            var h := Handled(None, calm, calm, Context(true, None), false, None);
            var x := Delivered(Some(PERMANENT), calm, Some(STORES), h);
            var d := Some(Delivery(1, 5));
            && DeadLetter(x.inner, x.ctx, d, x.chain).1
            && ComesBack(HandleOnce(Outside(x, d), d).res, d)
  {
    var calm := Context(false, None);
    var h := Handled(None, calm, calm, Context(true, None), false, None);
    var x := Delivered(Some(PERMANENT), calm, Some(STORES), h);
    var d := Some(Delivery(1, 5));
    PermanentFacts();
    assert Dispose(x.inner, Effective(d)) == Terminal;
    assert Loop(STORES, false).err.None?;
    StoredComesBackExactly(x, d);
  }

  // ---------- the whole life ----------

  /** One delivery of a JetStream message with the chain around its handler: how Retry ended, the
      context the dead-letter invoker sees, its publisher, and what happens around them. */
  datatype ChainVisit = ChainVisit(inner: Option<Error>, ctx: Context, chain: Option<Publisher>, v: Message.Visit)

  /** The handler ran, and the chain stored a record. */
  predicate ChainStores(c: ChainVisit, d: Delivery) {
    && !c.v.handBack && AtDecode !in c.v.panics && c.v.undecodable.None?
    && DeadLetter(c.inner, c.ctx, Some(d), c.chain).1
  }

  /** The JetStream transport names no handler timeout. */
  function DeliveredBy(c: ChainVisit): Delivered {
    Delivered(c.inner, c.ctx, c.chain, c.v.h.(timedOut := false))
  }

  /** The delivery as the transport sees it. */
  function Around(c: ChainVisit, d: Delivery): Message.Visit {
    c.v.(h := Outside(DeliveredBy(c), Some(d)))
  }

  function BehindChain(script: nat -> ChainVisit, max: nat): nat -> Message.Verdict {
    (i: nat) => Message.Handle(Around(script(i), Delivery(i, max)), Delivery(i, max))
  }

  /** The records that either publisher stores from delivery count on. */
  function Stores(script: nat -> ChainVisit, count: nat, max: nat): nat
    requires 1 <= count <= max
    decreases max - count
  {
    var r := BehindChain(script, max)(count);
    (if r.stored then 1 else 0) + (if ChainStores(script(count), Delivery(count, max)) then 1 else 0)
    + (if r.action in {Message.AckMsg, Message.Term} || count == max then 0 else Stores(script, count + 1, max))
  }

  /** A delivery whose record may come back: the condition of StoredComesBackExactly, or a panic
      outside the handler. */
  predicate MayComeBack(c: ChainVisit) {
    c.v.panics != {} || (c.v.h.atSettle.done && c.inner.Some? && ContextError(c.inner.value))
  }

  lemma OnePublisher(c: ChainVisit, d: Delivery)
    requires ChainStores(c, d)
    ensures !Message.Handle(Around(c, d), d).stored
  {
    hide DeadLetter, SettleMessage;
    var x := DeliveredBy(c);
    var h := Outside(x, Some(d));
    FailureNeverTurnsNil(c.inner, c.ctx, Some(d), c.chain);
    var out := DeadLetter(c.inner, c.ctx, Some(d), c.chain).0.value;
    TransportErrorKeeps(h, out, DeadLettered);
    var s := InvokeEnd(TRANSPORT, h.atEnd, Some(d), h.err, c.v.panics).0;
    var input := Input(h.atSettle, true, Some(TransportError(h, out)), h.publisher);
    KnownDeadLetterIsNotPublished(s, Some(d), input, c.v.panics);
  }

  /** Without panics the callback does what the settlement of the delivery says. */
  lemma CallbackSettles(c: ChainVisit, d: Delivery)
    requires !c.v.handBack && c.v.undecodable.None? && c.v.panics == {}
    ensures var h := Outside(DeliveredBy(c), Some(d));
            Message.Handle(Around(c, d), d) == Message.Conclude(HandleOnce(h, Some(d)), d)
  {
    hide DeadLetter, SettleMessage;
    var h := Outside(DeliveredBy(c), Some(d));
    Message.InvokeKeeps(h.atEnd, d, h.err, {});
  }

  /** A delivery that comes back left no record behind. */
  lemma NothingStoredComesBack(c: ChainVisit, d: Delivery)
    requires Message.Handle(Around(c, d), d).action in {Message.Nak, Message.NakWithDelay} && !d.Final()
    requires ChainStores(c, d) ==> !MayComeBack(c)
    ensures !Message.Handle(Around(c, d), d).stored && !ChainStores(c, d)
  {
    hide DeadLetter, HandleOnce, Message.Handle;
    Message.NakNeverReports(Around(c, d), d);
    if ChainStores(c, d) {
      FailureNeverTurnsNil(c.inner, c.ctx, Some(d), c.chain);
      CallbackSettles(c, d);
      SignalsExactlyOnce(Outside(DeliveredBy(c), Some(d)), Some(d));
      StoredComesBackExactly(DeliveredBy(c), Some(d));
    }
  }

  lemma {:induction false} StoresOnce(script: nat -> ChainVisit, count: nat, max: nat)
    requires 1 <= count <= max
    requires forall i | 1 <= i < max && ChainStores(script(i), Delivery(i, max)) :: !MayComeBack(script(i))
    ensures Stores(script, count, max) <= 1
    decreases max - count
  {
    hide ChainStores, MayComeBack, Message.Handle;
    var c, d := script(count), Delivery(count, max);
    if ChainStores(c, d) {
      OnePublisher(c, d);
    }
    var r := BehindChain(script, max)(count);
    if !(r.action in {Message.AckMsg, Message.Term} || count == max) {
      assert r.action.Nak? || r.action.NakWithDelay?;
      NothingStoredComesBack(c, d);
      StoresOnce(script, count + 1, max);
    }
  }

  /** Over the whole life of a message, with the dead-letter chain in front of the transport's own
      publisher: the two store at most one record together, for every script, unless a delivery the
      chain stored on may come back. */
  lemma LifeStoresOnce(script: nat -> ChainVisit, max: nat)
    requires max > 0
    requires forall i | 1 <= i < max && ChainStores(script(i), Delivery(i, max)) :: !MayComeBack(script(i))
    ensures Stores(script, 1, max) <= 1
  {
    StoresOnce(script, 1, max);
  }

  /** The visit of DeadLetteredCanComeBack. */
  function Cancelled(): ChainVisit {
    var calm := Context(false, None);
    var h := Handled(None, calm, calm, Context(true, None), false, None);
    ChainVisit(Some(PERMANENT), calm, Some(STORES), Message.Visit(false, None, h, {}))
  }

  lemma CancelledIsStored(d: Delivery)
    requires d == Delivery(1, 2) || d == Delivery(2, 2)
    ensures ChainStores(Cancelled(), d) && !Message.Handle(Around(Cancelled(), d), d).stored
  {
    hide Message.Handle, HandleOnce, Outside, ReasonOf;
    PermanentFacts();
    assert Dispose(Some(PERMANENT), d) == Terminal;
    assert Loop(STORES, false).err.None? && Loop(STORES, true).err.None?;
    assert ChainStores(Cancelled(), d);
    OnePublisher(Cancelled(), d);
  }

  lemma CancelledComesBack()
    ensures var d := Delivery(1, 2); Message.Handle(Around(Cancelled(), d), d).action == Message.Nak
  {
    hide DeadLetter, HandleOnce, Message.Handle;
    var c, d := Cancelled(), Delivery(1, 2);
    PermanentFacts();
    CancelledIsStored(d);
    CallbackSettles(c, d);
    SignalsExactlyOnce(Outside(DeliveredBy(c), Some(d)), Some(d));
    StoredComesBackExactly(DeliveredBy(c), Some(d));
  }

  /** Where one may, two records can be stored: DeadLetteredCanComeBack on two deliveries in a row. */
  lemma TwoRecordsStored()
    ensures Stores((i: nat) => Cancelled(), 1, 2) == 2
  {
    hide ChainStores, Message.Handle, Cancelled;
    CancelledIsStored(Delivery(1, 2));
    CancelledIsStored(Delivery(2, 2));
    CancelledComesBack();
  }
}
