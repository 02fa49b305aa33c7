/** Error values as trees (failure.go, errors.go, invoke.go), searched like errors.Is and errors.As:
    depth first, a node before what it wraps, several wrapped errors from left to right. */
module Errors {
  import opened Base

  datatype Sentinel =
    | Duplicate | CircuitOpen | RateLimited | SendToDLQ | RetriesExhausted | DeadLettered | InProgress
    | DeadLetterFailed | BusClosed | QueueFull | ShutdownInterrupted | HandlerPanic | HandlerTimeout
    | UnknownVersion | MalformedEnvelope | UnknownEvent | MissingUpcaster
    | Canceled | DeadlineExceeded
    | Opaque(id: nat)

  datatype Attempt = Attempt(n: nat, err: Error)

  datatype Error =
    | Plain(s: Sentinel)
    | Wrapped(parts: seq<Error>)
    | Failure(cause: Option<Error>, reason: string, attempts: int, history: seq<Attempt>)
    | Lettered(cause: Option<Error>, reason: string)
    | LetterFailed(cause: Option<Error>, reason: string, publishErr: Option<Error>)
    | Panicked(value: nat)
    | DecodeFailed(inner: Option<Error>)
    /** A user error with its own Terminal and Retryable methods, as far as it has them. */
    | Marked(terminal: Option<bool>, retryable: Option<bool>, inner: Option<Error>)

  const TERMINAL := "terminal"
  const RETRIES_EXHAUSTED := "retries_exhausted"
  const DELIVERY_EXHAUSTED := "delivery_exhausted"
  const CIRCUIT_OPEN := "circuit_open"
  const RATE_LIMITED := "rate_limited"
  const UNKNOWN_VERSION := "unknown_version"
  const IN_PROGRESS := "in_progress"
  const DECODE_MALFORMED := "decode_malformed"
  const DECODE_UNKNOWN_EVENT := "decode_unknown_event"
  const DECODE_MISSING_UPCASTER := "decode_missing_upcaster"
  const DECODE_FAILED := "decode_failed"
  const DUPLICATE := "duplicate"
  const INTERRUPTED := "interrupted"
  const PANIC := "panic"
  const BUS_CLOSED := "bus_closed"
  const QUEUE_FULL := "queue_full"

  // ---------- the search order ----------

  /** The sentinel a FailureError adds to what it wraps. */
  function ReasonSentinel(reason: string): seq<Error> {
    if reason == TERMINAL then [Plain(SendToDLQ)]
    else if reason == RETRIES_EXHAUSTED then [Plain(RetriesExhausted)]
    else []
  }

  function Nodes(e: Error): seq<Error>
    decreases e, 2
  {
    [e] + Under(e)
  }

  /** What e wraps, in search order. */
  function Under(e: Error): seq<Error>
    decreases e, 1
  {
    match e
    case Plain(_) => []
    case Panicked(_) => []
    case Wrapped(parts) => NodesOf(parts)
    case Failure(cause, reason, _, _) => NodesIn(cause) + ReasonSentinel(reason)
    case Lettered(cause, _) => [Plain(DeadLettered)] + NodesIn(cause)
    case LetterFailed(cause, _, publishErr) => [Plain(DeadLetterFailed)] + NodesIn(publishErr) + NodesIn(cause)
    case DecodeFailed(inner) => NodesIn(inner)
    case Marked(_, _, inner) => NodesIn(inner)
  }

  function NodesIn(e: Option<Error>): seq<Error>
    decreases e, 3
  {
    if e.Some? then Nodes(e.value) else []
  }

  function NodesOf(es: seq<Error>): seq<Error>
    decreases es, 0
  {
    if es == [] then [] else Nodes(es[0]) + NodesOf(es[1..])
  }

  /** A panic matches ErrHandlerPanic and wraps nothing, whatever value was thrown. */
  predicate Matches(n: Error, s: Sentinel) {
    n == Plain(s) || (n.Panicked? && s == HandlerPanic)
  }

  predicate MatchIn(ns: seq<Error>, s: Sentinel) {
    exists n :: n in ns && Matches(n, s)
  }

  /** errors.Is */
  predicate Is(e: Error, s: Sentinel) {
    MatchIn(Nodes(e), s)
  }

  /** errors.As: the first node that has what is asked for. */
  function First(ns: seq<Error>, p: Error -> bool): Option<Error> {
    if ns == [] then None else if p(ns[0]) then Some(ns[0]) else First(ns[1..], p)
  }

  lemma {:induction false} FirstIsFirst(ns: seq<Error>, p: Error -> bool)
    ensures First(ns, p).None? <==> forall n | n in ns :: !p(n)
    ensures First(ns, p).Some? ==> exists k: nat :: k < |ns| && First(ns, p).value == ns[k] && p(ns[k])
                                     && forall j | 0 <= j < k :: !p(ns[j])
  {
    if ns != [] && !p(ns[0]) {
      FirstIsFirst(ns[1..], p);
      if First(ns[1..], p).Some? {
        var k: nat :| k < |ns[1..]| && First(ns, p).value == ns[1..][k] && p(ns[1..][k])
                      && forall j | 0 <= j < k :: !p(ns[1..][j]);
        forall j | 0 <= j < k + 1 ensures !p(ns[j]) {
          assert j > 0 ==> ns[j] == ns[1..][j - 1];
        }
        assert ns[k + 1] == ns[1..][k];
      }
    }
  }

  predicate HasTerminal(n: Error) {
    n.Panicked? || (n.Marked? && n.terminal.Some?)
  }

  predicate HasRetryable(n: Error) {
    n.Marked? && n.retryable.Some?
  }

  predicate IsLettered(n: Error) {
    n.Lettered?
  }

  predicate IsLetterFailed(n: Error) {
    n.LetterFailed?
  }

  predicate IsFailure(n: Error) {
    n.Failure?
  }

  /** The answer of the first Terminal method in the tree. */
  predicate TerminalMethod(e: Error) {
    var t := First(Nodes(e), HasTerminal);
    t.Some? && (t.value.Panicked? || (t.value.Marked? && t.value.terminal == Some(true)))
  }

  predicate IsTerminal(e: Error) {
    Is(e, SendToDLQ) || TerminalMethod(e)
  }

  predicate DecodeIn(ns: seq<Error>) {
    exists n :: n in ns && n.DecodeFailed?
  }

  predicate IsDecode(e: Error) {
    DecodeIn(Nodes(e))
  }

  predicate ContextError(e: Error) {
    Is(e, Canceled) || Is(e, DeadlineExceeded)
  }

  // ---------- reasons ----------

  /** The reason a carrier error in the tree brings along, or the empty text. */
  function CarriedIn(ns: seq<Error>): string {
    var dl := First(ns, IsLettered);
    var df := First(ns, IsLetterFailed);
    var fe := First(ns, IsFailure);
    if dl.Some? && dl.value.Lettered? && dl.value.reason != "" then dl.value.reason
    else if df.Some? && df.value.LetterFailed? && df.value.reason != "" then df.value.reason
    else if fe.Some? && fe.value.Failure? then fe.value.reason
    else ""
  }

  function CarriedReason(e: Error): string {
    CarriedIn(Nodes(e))
  }

  function ReasonOf(e: Error): string {
    if Is(e, HandlerPanic) then PANIC
    else if CarriedReason(e) != "" then CarriedReason(e)
    else if Is(e, Duplicate) then DUPLICATE
    else if Is(e, BusClosed) then BUS_CLOSED
    else if Is(e, QueueFull) then QUEUE_FULL
    else if Is(e, ShutdownInterrupted) then INTERRUPTED
    else if IsTerminal(e) then TERMINAL
    else if Is(e, UnknownVersion) then UNKNOWN_VERSION
    else if Is(e, CircuitOpen) then CIRCUIT_OPEN
    else if Is(e, RateLimited) then RATE_LIMITED
    else if Is(e, InProgress) then IN_PROGRESS
    else if Is(e, MalformedEnvelope) then DECODE_MALFORMED
    else if Is(e, UnknownEvent) then DECODE_UNKNOWN_EVENT
    else if Is(e, MissingUpcaster) then DECODE_MISSING_UPCASTER
    else if IsDecode(e) then DECODE_FAILED
    else if Is(e, RetriesExhausted) then RETRIES_EXHAUSTED
    else DELIVERY_EXHAUSTED
  }

  const REASONS := 15

  /** The reasons in the order in which they are looked for. */
  function ReasonName(i: nat): string {
    match i
    case 0 => PANIC
    case 1 => DUPLICATE
    case 2 => BUS_CLOSED
    case 3 => QUEUE_FULL
    case 4 => INTERRUPTED
    case 5 => TERMINAL
    case 6 => UNKNOWN_VERSION
    case 7 => CIRCUIT_OPEN
    case 8 => RATE_LIMITED
    case 9 => IN_PROGRESS
    case 10 => DECODE_MALFORMED
    case 11 => DECODE_UNKNOWN_EVENT
    case 12 => DECODE_MISSING_UPCASTER
    case 13 => DECODE_FAILED
    case 14 => RETRIES_EXHAUSTED
    case _ => DELIVERY_EXHAUSTED
  }

  /** What each of them means. */
  ghost predicate Applies(i: nat, e: Error) {
    match i
    case 0 => Is(e, HandlerPanic)
    case 1 => Is(e, Duplicate)
    case 2 => Is(e, BusClosed)
    case 3 => Is(e, QueueFull)
    case 4 => Is(e, ShutdownInterrupted)
    case 5 => IsTerminal(e)
    case 6 => Is(e, UnknownVersion)
    case 7 => Is(e, CircuitOpen)
    case 8 => Is(e, RateLimited)
    case 9 => Is(e, InProgress)
    case 10 => Is(e, MalformedEnvelope)
    case 11 => Is(e, UnknownEvent)
    case 12 => Is(e, MissingUpcaster)
    case 13 => IsDecode(e)
    case 14 => Is(e, RetriesExhausted)
    case _ => true
  }

  /** The first reason that applies, from i on. */
  ghost function FirstReason(e: Error, i: nat): nat
    decreases REASONS - i
  {
    if i >= REASONS || Applies(i, e) then i else FirstReason(e, i + 1)
  }

  /** The reason of an error: a panic before everything; then the one the tree brings along; otherwise
      the first in the ranking that applies, and DELIVERY_EXHAUSTED when none does. */
  lemma ReasonExactly(e: Error)
    ensures ReasonOf(e)
            == if !Is(e, HandlerPanic) && CarriedReason(e) != "" then CarriedReason(e)
               else ReasonName(FirstReason(e, 0))
  {
    hide Is, CarriedReason, IsTerminal, IsDecode, FirstReason, Applies;
    FirstFrom0(e);
    FirstFrom5(e);
    FirstFrom10(e);
  }

  lemma FirstFrom0(e: Error)
    ensures FirstReason(e, 0)
            == if Is(e, HandlerPanic) then 0 else if Is(e, Duplicate) then 1 else if Is(e, BusClosed) then 2
               else if Is(e, QueueFull) then 3 else if Is(e, ShutdownInterrupted) then 4 else FirstReason(e, 5)
  {
    hide Is;
    assert FirstReason(e, 3)
           == if Is(e, QueueFull) then 3 else if Is(e, ShutdownInterrupted) then 4 else FirstReason(e, 5);
  }

  lemma FirstFrom10(e: Error)
    ensures FirstReason(e, 10)
            == if Is(e, MalformedEnvelope) then 10 else if Is(e, UnknownEvent) then 11
               else if Is(e, MissingUpcaster) then 12 else if IsDecode(e) then 13
               else if Is(e, RetriesExhausted) then 14 else 15
  {
    hide Is, IsDecode;
    assert FirstReason(e, 13) == if IsDecode(e) then 13 else if Is(e, RetriesExhausted) then 14 else 15;
  }

  lemma FirstFrom5(e: Error)
    ensures FirstReason(e, 5)
            == if IsTerminal(e) then 5 else if Is(e, UnknownVersion) then 6 else if Is(e, CircuitOpen) then 7
               else if Is(e, RateLimited) then 8 else if Is(e, InProgress) then 9 else FirstReason(e, 10)
  {
    hide Is, IsTerminal;
    assert FirstReason(e, 8) == if Is(e, RateLimited) then 8 else if Is(e, InProgress) then 9 else FirstReason(e, 10);
  }

  function AttemptsOf(e: Error): int {
    var fe := First(Nodes(e), IsFailure);
    if fe.Some? && fe.value.Failure? then fe.value.attempts
    else if ReasonOf(e) in {CIRCUIT_OPEN, RATE_LIMITED, IN_PROGRESS, UNKNOWN_VERSION, DUPLICATE,
                            DECODE_MALFORMED, DECODE_UNKNOWN_EVENT, DECODE_MISSING_UPCASTER, DECODE_FAILED}
    then 0 else 1
  }

  /** A panic anywhere in the tree makes it a panic, and is its reason. */
  lemma PanicEverywhere(e: Error, n: Error)
    requires n.Panicked? && n in Nodes(e)
    ensures Is(e, HandlerPanic) && ReasonOf(e) == PANIC
  {
    assert Matches(n, HandlerPanic);
  }

  /** A panic matches ErrHandlerPanic and nothing else, and is terminal. */
  lemma PanicAlone(value: nat, s: Sentinel)
    ensures Is(Panicked(value), s) <==> s == HandlerPanic
    ensures TerminalMethod(Panicked(value)) && IsTerminal(Panicked(value))
  {
    var e := Panicked(value);
    assert Nodes(e) == [e];
    FirstIsHead(Nodes(e), HasTerminal);
    assert e in Nodes(e);
  }

  /** The node answers Terminal. */
  predicate AnswersTerminal(n: Error) {
    n.Panicked? || (n.Marked? && n.terminal.Some?)
  }

  /** Whether the tree is terminal by a method is for the first node that has one to say. */
  lemma TerminalMethodExactly(e: Error) returns (k: nat)
    ensures k <= |Nodes(e)| && (k < |Nodes(e)| ==> AnswersTerminal(Nodes(e)[k]))
    ensures forall j | 0 <= j < k :: !AnswersTerminal(Nodes(e)[j])
    ensures TerminalMethod(e) <==> k < |Nodes(e)| && (Nodes(e)[k].Panicked? || Nodes(e)[k].terminal == Some(true))
  {
    var ns := Nodes(e);
    FirstIsFirst(ns, HasTerminal);
    if First(ns, HasTerminal).None? {
      forall j | 0 <= j < |ns| ensures !AnswersTerminal(ns[j]) {
        assert ns[j] in ns && !HasTerminal(ns[j]);
      }
      return |ns|;
    }
    k :| k < |ns| && First(ns, HasTerminal).value == ns[k] && HasTerminal(ns[k])
         && forall j | 0 <= j < k :: !HasTerminal(ns[j]);
    forall j | 0 <= j < k ensures !AnswersTerminal(ns[j]) {
      assert !HasTerminal(ns[j]);
    }
  }

  /** The attempt count of a failure: the one Retry brought along; otherwise none when the handler never
      ran, turned away in front of it or undecodable, and one when it did. */
  lemma AttemptsExactly(e: Error)
    ensures var f := First(Nodes(e), IsFailure);
            if f.Some? then f.value.Failure? && AttemptsOf(e) == f.value.attempts
            else AttemptsOf(e) in {0, 1}
                 && (AttemptsOf(e) == 0 <==>
                       ReasonOf(e) in {CIRCUIT_OPEN, RATE_LIMITED, IN_PROGRESS, UNKNOWN_VERSION, DUPLICATE,
                                       DECODE_MALFORMED, DECODE_UNKNOWN_EVENT, DECODE_MISSING_UPCASTER, DECODE_FAILED})
  {
    FirstIsFirst(Nodes(e), IsFailure);
  }

  // ---------- wrapping ----------

  lemma MatchConcat(a: seq<Error>, b: seq<Error>, s: Sentinel)
    ensures MatchIn(a + b, s) <==> MatchIn(a, s) || MatchIn(b, s)
  {
    if MatchIn(a, s) {
      var n :| n in a && Matches(n, s);
      assert n in a + b;
    } else if MatchIn(b, s) {
      var n :| n in b && Matches(n, s);
      assert n in a + b;
    }
  }

  lemma DecodeConcat(a: seq<Error>, b: seq<Error>)
    ensures DecodeIn(a + b) <==> DecodeIn(a) || DecodeIn(b)
  {
    if DecodeIn(a) {
      var n :| n in a && n.DecodeFailed?;
      assert n in a + b;
    } else if DecodeIn(b) {
      var n :| n in b && n.DecodeFailed?;
      assert n in a + b;
    }
  }

  lemma TopMatches(top: Error, t: Sentinel, s: Sentinel)
    requires !top.Plain? && !top.Panicked? && !top.DecodeFailed?
    ensures MatchIn([top, Plain(t)], s) <==> s == t
    ensures !DecodeIn([top, Plain(t)])
  {
    assert Plain(t) in [top, Plain(t)] && Matches(Plain(t), t);
  }

  /** A list searched behind a node that carries nothing and the sentinel t. */
  lemma SearchBehind(top: Error, t: Sentinel, ns: seq<Error>, s: Sentinel)
    requires !top.Plain? && !top.Panicked? && !top.DecodeFailed?
    ensures MatchIn([top, Plain(t)] + ns, s) <==> s == t || MatchIn(ns, s)
    ensures DecodeIn([top, Plain(t)] + ns) <==> DecodeIn(ns)
  {
    hide MatchIn, DecodeIn;
    MatchConcat([top, Plain(t)], ns, s);
    DecodeConcat([top, Plain(t)], ns);
    TopMatches(top, t, s);
  }

  lemma NeitherOfTwo(a: Error, b: Error, p: Error -> bool)
    requires !p(a) && !p(b)
    ensures First([a, b], p).None?
  {
    assert [a, b][1..] == [b] && [b][1..] == [];
    assert First([b], p) == First([], p);
  }

  lemma PlainAlone(s: Sentinel)
    ensures Nodes(Plain(s)) == [Plain(s)]
    ensures forall t :: Is(Plain(s), t) <==> t == s
    ensures !IsDecode(Plain(s)) && First(Nodes(Plain(s)), HasTerminal).None?
    ensures First(Nodes(Plain(s)), HasRetryable).None?
  {
    var p := Plain(s);
    assert Nodes(p) == [p];
    assert [p][0] in [p] && Matches([p][0], s);
    assert [p][1..] == [];
  }

  lemma WrappedNodes(s: Sentinel, e: Error)
    ensures var w := Wrapped([Plain(s), e]);
            Nodes(w) == [w, Plain(s)] + Nodes(e)
  {
    var w, p := Wrapped([Plain(s), e]), Plain(s);
    PlainAlone(s);
    assert [p, e][1..] == [e] && [e][1..] == [];
    assert NodesOf([p, e]) == Nodes(p) + NodesOf([e]);
    assert NodesOf([e]) == Nodes(e) + [];
    Regroup(w, p, Nodes(e));
  }

  lemma Regroup(a: Error, b: Error, rest: seq<Error>)
    ensures [a] + ([b] + (rest + [])) == [a, b] + rest
    ensures [a] + ([b] + rest) == [a, b] + rest
  {
  }

  lemma BehindSentinel(top: Error, s: Sentinel, rest: seq<Error>)
    requires Under(top) == [Plain(s)] + rest
    ensures Nodes(top) == [top, Plain(s)] + rest
  {
    Regroup(top, Plain(s), rest);
  }

  /** fmt.Errorf("%w: %w", sentinel, err) adds exactly that sentinel to what matches, and changes
      neither the Terminal answer nor any carrier. */
  lemma WrapAddsOneSentinel(s: Sentinel, e: Error)
    ensures forall t :: Is(Wrapped([Plain(s), e]), t) <==> t == s || Is(e, t)
    ensures TerminalMethod(Wrapped([Plain(s), e])) <==> TerminalMethod(e)
    ensures IsDecode(Wrapped([Plain(s), e])) <==> IsDecode(e)
  {
    var w := Wrapped([Plain(s), e]);
    WrappedNodes(s, e);
    NeitherOfTwo(w, Plain(s), HasTerminal);
    FirstSkips([w, Plain(s)], Nodes(e), HasTerminal);
    forall t ensures Is(w, t) <==> t == s || Is(e, t) {
      SearchBehind(w, s, Nodes(e), t);
    }
    SearchBehind(w, s, Nodes(e), s);
  }

  lemma {:induction false} FirstSkips(a: seq<Error>, b: seq<Error>, p: Error -> bool)
    requires First(a, p).None?
    ensures First(a + b, p) == First(b, p)
  {
    if a == [] {
      assert a + b == b;
    } else {
      assert (a + b)[1..] == a[1..] + b;
      FirstSkips(a[1..], b, p);
    }
  }

  lemma LetteredNodes(e: Error, reason: string)
    ensures var d := Lettered(Some(e), reason);
            Nodes(d) == [d, Plain(DeadLettered)] + Nodes(e)
  {
    var d := Lettered(Some(e), reason);
    assert Under(d) == [Plain(DeadLettered)] + NodesIn(Some(e));
    BehindSentinel(d, DeadLettered, Nodes(e));
  }

  lemma LetterFailedNodes(e: Error, reason: string, perr: Error)
    ensures var f := LetterFailed(Some(e), reason, Some(perr));
            Nodes(f) == [f, Plain(DeadLetterFailed)] + (Nodes(perr) + Nodes(e))
  {
    var f := LetterFailed(Some(e), reason, Some(perr));
    var p, n := [Plain(DeadLetterFailed)], NodesIn(Some(perr));
    assert Under(f) == p + n + NodesIn(Some(e)) == p + (n + NodesIn(Some(e)));
    BehindSentinel(f, DeadLetterFailed, Nodes(perr) + Nodes(e));
  }

  /** What a dead-lettered or a dead-letter-failed error matches. */
  lemma DeadLetterMatches(e: Error, reason: string, perr: Error)
    ensures forall t :: Is(Lettered(Some(e), reason), t) <==> t == DeadLettered || Is(e, t)
    ensures forall t :: Is(LetterFailed(Some(e), reason, Some(perr)), t)
                        <==> t == DeadLetterFailed || Is(perr, t) || Is(e, t)
  {
    var d := Lettered(Some(e), reason);
    var f := LetterFailed(Some(e), reason, Some(perr));
    LetteredNodes(e, reason);
    LetterFailedNodes(e, reason, perr);
    forall t
      ensures Is(d, t) <==> t == DeadLettered || Is(e, t)
      ensures Is(f, t) <==> t == DeadLetterFailed || Is(perr, t) || Is(e, t)
    {
      SearchBehind(d, DeadLettered, Nodes(e), t);
      SearchBehind(f, DeadLetterFailed, Nodes(perr) + Nodes(e), t);
      MatchConcat(Nodes(perr), Nodes(e), t);
    }
  }

  function SentinelOf(reason: string): Option<Sentinel> {
    if reason == TERMINAL then Some(SendToDLQ)
    else if reason == RETRIES_EXHAUSTED then Some(RetriesExhausted)
    else None
  }

  /** A FailureError matches what its cause matches and the one sentinel its reason selects. */
  lemma FailureMatches(cause: Error, reason: string, attempts: int, history: seq<Attempt>, s: Sentinel)
    ensures Is(Failure(Some(cause), reason, attempts, history), s) <==> Is(cause, s) || SentinelOf(reason) == Some(s)
  {
    var f := Failure(Some(cause), reason, attempts, history);
    var rs := ReasonSentinel(reason);
    assert Under(f) == NodesIn(Some(cause)) + rs;
    MatchConcat([f], Nodes(cause) + rs, s);
    MatchConcat(Nodes(cause), rs, s);
    if SentinelOf(reason) == Some(s) {
      assert rs[0] == Plain(s) && Matches(rs[0], s);
    }
  }

  /** The reason of a failure is never empty, and survives being dead-lettered. */
  lemma ReasonSurvivesDeadLetter(e: Error)
    ensures ReasonOf(e) != ""
    ensures ReasonOf(Lettered(Some(e), ReasonOf(e))) == ReasonOf(e)
  {
    DeadLetterMatches(e, ReasonOf(e), e);
    ReasonNonEmpty(e);
    CarriedByLettered(e, ReasonOf(e));
  }

  /** A publish error hides the reason behind a panic of its own, or behind a dead letter it holds. */
  predicate Hides(perr: Error, e: Error) {
    if Is(perr, HandlerPanic) then ReasonOf(e) != PANIC
    else
      var dl := First(Nodes(perr), IsLettered);
      && !Is(e, HandlerPanic)
      && dl.Some? && dl.value.Lettered? && dl.value.reason != "" && dl.value.reason != ReasonOf(e)
  }

  /** Exactly when the reason survives a failed dead-letter publish, for every failure and every
      publish error. */
  lemma ReasonAfterFailedPublish(e: Error, perr: Error)
    ensures ReasonOf(LetterFailed(Some(e), ReasonOf(e), Some(perr))) == ReasonOf(e) <==> !Hides(perr, e)
  {
    var r := ReasonOf(e);
    DeadLetterMatches(e, r, perr);
    ReasonNonEmpty(e);
    CarriedByLetterFailed(e, r, perr);
  }

  lemma ReasonNonEmpty(e: Error)
    ensures ReasonOf(e) != ""
  {
  }

  lemma CarriedByLettered(e: Error, reason: string)
    requires reason != ""
    ensures CarriedReason(Lettered(Some(e), reason)) == reason
  {
    var d := Lettered(Some(e), reason);
    FirstIsHead(Nodes(d), IsLettered);
  }

  /** The dead letter found first in a failed publish: one in the publish error comes before one in
      the cause. */
  function FirstLetter(e: Error, perr: Error): Option<Error> {
    var dl := First(Nodes(perr), IsLettered);
    if dl.Some? then dl else First(Nodes(e), IsLettered)
  }

  lemma CarriedByLetterFailed(e: Error, reason: string, perr: Error)
    requires reason != ""
    ensures var dl := FirstLetter(e, perr);
            CarriedReason(LetterFailed(Some(e), reason, Some(perr)))
            == if dl.Some? && dl.value.Lettered? && dl.value.reason != "" then dl.value.reason else reason
  {
    var f := LetterFailed(Some(e), reason, Some(perr));
    LetterFailedNodes(e, reason, perr);
    NeitherOfTwo(f, Plain(DeadLetterFailed), IsLettered);
    FirstOfTwo(Nodes(perr), Nodes(e), IsLettered);
    FirstSkips([f, Plain(DeadLetterFailed)], Nodes(perr) + Nodes(e), IsLettered);
    CarriedByHead(f, Nodes(f));
  }

  lemma {:induction false} FirstOfTwo(a: seq<Error>, b: seq<Error>, p: Error -> bool)
    ensures First(a + b, p) == if First(a, p).Some? then First(a, p) else First(b, p)
  {
    if a == [] {
      assert a + b == b;
    } else {
      assert (a + b)[1..] == a[1..] + b;
      FirstOfTwo(a[1..], b, p);
    }
  }

  lemma CarriedByHead(f: Error, ns: seq<Error>)
    requires ns != [] && ns[0] == f && f.LetterFailed? && f.reason != ""
    ensures var dl := First(ns, IsLettered);
            CarriedIn(ns)
            == if dl.Some? && dl.value.Lettered? && dl.value.reason != "" then dl.value.reason else f.reason
  {
    FirstIsHead(ns, IsLetterFailed);
  }

  lemma FirstIsHead(ns: seq<Error>, p: Error -> bool)
    requires ns != [] && p(ns[0])
    ensures First(ns, p) == Some(ns[0])
  {
  }
}
