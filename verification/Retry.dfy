/** The in-process retry loop with its bounded history (invoker/retry.go). */
module Retry {
  import opened Base
  import opened Errors

  /** maxAttempts and historySize as configured; the delays between attempts are not modelled. */
  datatype Policy = Policy(maxAttempts: int, historySize: int)

  const DEFAULT_HISTORY_SIZE := 5

  /** One call down the chain: refused by the circuit breaker, or a real handler run. */
  datatype Call = Rejected | Ran(err: Option<Error>)

  function ErrorOf(c: Call): Option<Error> {
    match c
    case Rejected => Some(Plain(CircuitOpen))
    case Ran(err) => err
  }

  function Budget(p: Policy): (n: nat)
    ensures n >= 1 && n >= p.maxAttempts && (n == 1 || n == p.maxAttempts)
  {
    if p.maxAttempts < 1 then 1 else p.maxAttempts
  }

  function RingSize(p: Policy): nat {
    if p.historySize == 0 then DEFAULT_HISTORY_SIZE
    else if p.historySize < 0 then 0
    else p.historySize
  }

  /** (retry, terminal) */
  function Classify(e: Error): (bool, bool) {
    if Is(e, Duplicate) || Is(e, RateLimited) || Is(e, CircuitOpen) || Is(e, InProgress) then (false, false)
    else if Is(e, DeadLettered) || Is(e, DeadLetterFailed) then (false, false)
    else if ContextError(e) then (false, false)
    else if TerminalMethod(e) then (false, true)
    else
      var r := First(Nodes(e), HasRetryable);
      (if r.Some? && r.value.Marked? && r.value.retryable.Some? then r.value.retryable.value else true, false)
  }

  /** Whatever order the checks come in: duplicates, rejections, dead letters and ended contexts are
      neither retried nor terminal; anything else is terminal when its Terminal method says so, and
      otherwise retried unless its Retryable method says no. */
  lemma ClassifyExactly(e: Error)
    ensures var settled := exists s :: s in {Duplicate, RateLimited, CircuitOpen, InProgress, DeadLettered,
                                             DeadLetterFailed, Canceled, DeadlineExceeded} && Is(e, s);
            var r := First(Nodes(e), HasRetryable);
            && (Classify(e).1 <==> !settled && TerminalMethod(e))
            && (Classify(e).0 <==> !settled && !TerminalMethod(e)
                                   && !(r.Some? && r.value.Marked? && r.value.retryable == Some(false)))
  {
    if r: Sentinel :| r in {Duplicate, RateLimited, CircuitOpen, InProgress, DeadLettered,
                            DeadLetterFailed, Canceled, DeadlineExceeded} && Is(e, r) {
      assert Classify(e) == (false, false);
    }
  }

  /** The last n elements. */
  function LastOf<T>(s: seq<T>, n: nat): seq<T> {
    if |s| <= n then s else s[|s| - n..]
  }

  class AttemptRing {
    const size: nat
    var items: seq<Attempt>
    /** Every attempt ever added. */
    ghost var all: seq<Attempt>

    ghost predicate Valid()
      reads this
    {
      items == LastOf(all, size)
    }

    constructor (size: nat)
      ensures Valid() && all == [] && this.size == size
    {
      this.size := size;
      items, all := [], [];
    }

    method Add(a: Attempt)
      requires Valid()
      modifies this
      ensures Valid() && all == old(all) + [a]
    {
      all := all + [a];
      if size == 0 {
        return;
      }
      if |items| == size {
        items := items[1..] + [a];
        return;
      }
      items := items + [a];
    }
  }

  /** How Retry ended: the handler succeeded, an error went through unchanged, or Retry's own
      FailureError. */
  datatype End = Success | Passed(err: Error) | Own(cause: Error, reason: string, attempts: nat, history: seq<Attempt>)

  function EndError(e: End): Option<Error> {
    match e
    case Success => None
    case Passed(err) => Some(err)
    case Own(cause, reason, attempts, history) => Some(Failure(Some(cause), reason, attempts, history))
  }

  /** calls(k) answers attempt k, counted from 1; waits(k) is the context error of the wait after
      it, None when the wait ran to its end. */
  datatype Script = Script(calls: nat -> Call, waits: nat -> Option<Error>)

  /** The attempts 1..n with their errors. */
  ghost function Made(s: Script, n: nat): seq<Attempt> {
    seq(n, i requires 0 <= i < n =>
      Attempt(i + 1, if ErrorOf(s.calls(i + 1)).Some? then ErrorOf(s.calls(i + 1)).value else Plain(Opaque(0))))
  }

  /** How many of the first n calls reached the handler. */
  ghost function Runs(s: Script, n: nat): nat {
    if n == 0 then 0 else Runs(s, n - 1) + (if s.calls(n).Ran? then 1 else 0)
  }

  /** Attempt k failed in a way that is retried, and the wait after it ran to its end. */
  predicate Retried(s: Script, k: nat) {
    ErrorOf(s.calls(k)).Some? && Classify(ErrorOf(s.calls(k)).value).0 && s.waits(k).None?
  }

  ghost predicate AllRetried(s: Script, n: nat) {
    forall k | 1 <= k <= n :: Retried(s, k)
  }

  /** What Retry must return after exactly n calls. */
  ghost predicate Explains(p: Policy, s: Script, n: nat, e: End)
    requires n >= 1
  {
    var err := ErrorOf(s.calls(n));
    && AllRetried(s, n - 1) && n <= Budget(p)
    && (match e
        case Success => err.None?
        case Passed(x) =>
          err.Some?
          && ((err == Some(x) && !Classify(x).0 && !Classify(x).1 && (n == 1 || !Is(x, CircuitOpen)))
              || (Classify(err.value).0 && n < Budget(p) && s.waits(n) == Some(x)))
        case Own(cause, reason, attempts, history) =>
          && err == Some(cause)
          && history == LastOf(Made(s, attempts), RingSize(p))
          && ((reason == TERMINAL && Classify(cause).1 && attempts == n)
              || (reason == CIRCUIT_OPEN && n > 1 && Is(cause, CircuitOpen) && !Classify(cause).0 && !Classify(cause).1
                  && attempts == n - 1)
              || (reason == RETRIES_EXHAUSTED && Classify(cause).0 && n == Budget(p) && attempts == n)))
  }

  method Invoke(p: Policy, s: Script) returns (e: End, n: nat)
    ensures n >= 1 && Explains(p, s, n, e)
  {
    var maxAttempts := Budget(p);
    var hist := new AttemptRing(RingSize(p));
    var attempt := 1;
    while attempt <= maxAttempts
      invariant 1 <= attempt <= maxAttempts
      invariant hist.Valid() && hist.size == RingSize(p) && fresh(hist)
      invariant hist.all == Made(s, attempt - 1)
      invariant AllRetried(s, attempt - 1)
      decreases maxAttempts - attempt
    {
      var err := ErrorOf(s.calls(attempt));
      if err.None? {
        return Success, attempt;
      }
      var (retry, terminal) := Classify(err.value);
      assert Made(s, attempt) == Made(s, attempt - 1) + [Attempt(attempt, err.value)];
      if terminal {
        hist.Add(Attempt(attempt, err.value));
        return Own(err.value, TERMINAL, attempt, hist.items), attempt;
      }
      if !retry {
        if attempt > 1 && Is(err.value, CircuitOpen) {
          return Own(err.value, CIRCUIT_OPEN, attempt - 1, hist.items), attempt;
        }
        return Passed(err.value), attempt;
      }
      if attempt == maxAttempts {
        hist.Add(Attempt(attempt, err.value));
        return Own(err.value, RETRIES_EXHAUSTED, attempt, hist.items), attempt;
      }
      hist.Add(Attempt(attempt, err.value));
      var ended := s.waits(attempt);
      if ended.Some? {
        return Passed(ended.value), attempt;
      }
      attempt := attempt + 1;
    }
  }

  /** A rejected call is never retried. */
  lemma RejectedIsFlowControl()
    ensures Classify(Plain(CircuitOpen)) == (false, false) && Is(Plain(CircuitOpen), CircuitOpen)
  {
    PlainAlone(CircuitOpen);
  }

  lemma {:induction false} RetriedCallsRan(s: Script, n: nat)
    requires AllRetried(s, n)
    ensures Runs(s, n) == n
  {
    if n > 0 {
      RejectedIsFlowControl();
      assert Retried(s, n);
      RetriedCallsRan(s, n - 1);
    }
  }

  /** However a run of Retry ends, the handler runs at most max(MaxAttempts, 1) times, and when
      Retry makes its own FailureError, Attempts is the number of real handler runs. The one
      exception is a handler that itself returns a circuit-open error after a retried attempt:
      then, and only then, the last real run is not counted. */
  lemma AttemptsAreHandlerRuns(p: Policy, s: Script, n: nat, e: End)
    requires n >= 1 && Explains(p, s, n, e)
    ensures Runs(s, n) <= n && (n <= p.maxAttempts || n == 1)
    ensures e.Own? ==>
              && s.calls(n) != Ran(None)
              && (e.attempts == Runs(s, n) <==> !(s.calls(n).Ran? && Is(s.calls(n).err.value, CircuitOpen)))
              && (e.attempts != Runs(s, n) ==> e.attempts == Runs(s, n) - 1)
  {
    RetriedCallsRan(s, n - 1);
    RejectedIsFlowControl();
  }

  /** It gives up early only for a reason: before max(MaxAttempts, 1) calls the last one succeeded, was
      not to be retried, or its wait was cut off; and retries are exhausted exactly when all of them
      failed and were to be retried. */
  lemma StopsExactly(p: Policy, s: Script, n: nat, e: End)
    requires n >= 1 && Explains(p, s, n, e)
    ensures var last := n == p.maxAttempts || (p.maxAttempts < 1 && n == 1);
            && (!last ==> n < p.maxAttempts && !Retried(s, n))
            && (e.Own? && e.reason == RETRIES_EXHAUSTED <==>
                  last && ErrorOf(s.calls(n)).Some? && Classify(ErrorOf(s.calls(n)).value).0)
    ensures e.Success? <==> ErrorOf(s.calls(n)).None?
  {
  }

  lemma LastOfMade(s: Script, a: nat, size: nat)
    requires forall k | 1 <= k <= a :: ErrorOf(s.calls(k)).Some?
    ensures var h := LastOf(Made(s, a), size);
            && |h| == (if a < size then a else size)
            && forall i | 0 <= i < |h| ::
                 h[i].n == a - |h| + i + 1 && ErrorOf(s.calls(h[i].n)) == Some(h[i].err)
  {
    var made := Made(s, a);
    forall i | 0 <= i < a
      ensures made[i].n == i + 1 && ErrorOf(s.calls(i + 1)) == Some(made[i].err)
    {
    }
  }

  lemma AttemptsFailed(p: Policy, s: Script, n: nat, e: End)
    requires n >= 1 && Explains(p, s, n, e) && e.Own?
    ensures forall k | 1 <= k <= e.attempts :: ErrorOf(s.calls(k)).Some?
  {
    forall k | 1 <= k <= e.attempts ensures ErrorOf(s.calls(k)).Some? {
      if k < n {
        assert Retried(s, k);
      }
    }
  }

  /** The history of Retry's own FailureError holds exactly the last min(HistorySize, Attempts)
      attempts, oldest first, each with its number and its error. */
  lemma HistoryIsTheLastAttempts(p: Policy, s: Script, n: nat, e: End)
    requires n >= 1 && Explains(p, s, n, e) && e.Own?
    ensures var size := if p.historySize == 0 then 5 else p.historySize;
            |e.history| == (if size < 0 then 0 else if e.attempts < size then e.attempts else size)
    ensures forall i | 0 <= i < |e.history| ::
              e.history[i].n == e.attempts - |e.history| + i + 1
              && ErrorOf(s.calls(e.history[i].n)) == Some(e.history[i].err)
  {
    AttemptsFailed(p, s, n, e);
    LastOfMade(s, e.attempts, RingSize(p));
  }

  lemma NoEarlierEnd(p: Policy, s: Script, n: nat, e: End, m: nat)
    requires n >= 1 && m >= 1 && Explains(p, s, n, e) && AllRetried(s, m - 1) && m <= Budget(p)
    ensures n >= m
  {
    assert n < m ==> Retried(s, n);
  }

  /** Retry ends in exactly one way: the end and the number of calls follow from the script. */
  lemma EndIsDetermined(p: Policy, s: Script, n: nat, e: End, m: nat, f: End)
    requires n >= 1 && Explains(p, s, n, e) && m >= 1 && Explains(p, s, m, f)
    ensures n == m && e == f
  {
    NoEarlierEnd(p, s, n, e, m);
    NoEarlierEnd(p, s, m, f, n);
  }

  /** The exception is real: a retryable failure, then a handler error that matches
      ErrCircuitOpen. Two handler runs, one counted. */
  lemma HandlerCircuitOpenIsNotCounted()
    ensures var s := Script((k: nat) => if k == 1 then Ran(Some(Plain(Opaque(1)))) else Ran(Some(Plain(CircuitOpen))),
                            (k: nat) => None);
            var e := Own(Plain(CircuitOpen), CIRCUIT_OPEN, 1, [Attempt(1, Plain(Opaque(1)))]);
            Explains(Policy(3, 0), s, 2, e) && Runs(s, 2) == 2
  {
    var s := Script((k: nat) => if k == 1 then Ran(Some(Plain(Opaque(1)))) else Ran(Some(Plain(CircuitOpen))),
                    (k: nat) => None);
    var o := Plain(Opaque(1));
    RejectedIsFlowControl();
    PlainAlone(Opaque(1));
    assert Classify(o) == (true, false);
    assert s.calls(1) == Ran(Some(o)) && Retried(s, 1);
    assert Made(s, 1)[0] == Attempt(1, o);
    assert Runs(s, 1) == 1;
  }
}
