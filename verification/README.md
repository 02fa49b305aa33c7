# Verified model of the event bus

A Dafny model of the hard parts of a Go event bus: shutdown and dispatch, the circuit breaker,
the failure pipeline, ids and rate limits, bounded headers, log deduplication and dead-letter
replay. `dafny verify dfyconfig.toml` checks all of it.

How the model relates to the code:

- Code that changes an object under a mutex is a class whose methods do the same updates
  (`Lifecycle`, `HandlerBreaker`, `Observer`, `FailureScope`, `SettleGuard`, `AttemptRing`,
  `Generator`, `Entry`, `SlogObserver`); each method is proved equal to a step function on values.
- Concurrency is a transition system over those step functions. Goroutines meet only at mutexes and
  channels, so one critical section or channel operation is one step, and a run is any interleaving
  of enabled steps. Everything said about runs holds for all of them.
- Loops are methods with invariants, proved against a function or a relation that says what the
  result means; lemmas then say what that gives the caller.
- Clocks, random bytes, broker answers, user handlers, publishers and the moments at which contexts
  end are inputs, quantified over. Panics of user code outside the handler are a set of points that
  panic.

| File | Part of the system |
|---|---|
| `Base.dfy` | totals over sequences, used by every accounting argument |
| `Lifecycle.dfy` | admission, in-flight count, the replaceable idle channel, forced close |
| `LocalBus.dfy` | in-process dispatch: slots, queue room, overflow policies, nested emits |
| `Sync.dfy` | the synchronous emit and its joined error |
| `Drain.dfy` | owner and follower drains of the JetStream and NATS buses |
| `Breaker.dfy`, `Gauge.dfy` | circuit breaker under overlapping calls, and its gauge |
| `Errors.dfy` | error trees and their searches |
| `Publish.dfy`, `Settle.dfy`, `Message.dfy` | one delivery, and the whole life of a JetStream message |
| `Retry.dfy`, `Chain.dfy` | the in-process retry loop, and the dead-letter chain around it |
| `Uuid.dfy`, `RateLimit.dfy` | UUIDv7 ids, token bucket with key expiry |
| `Truncate.dfy`, `History.dfy` | bounded header text and the retry-history header |
| `Dedup.dfy` | log deduplication raced by timers and flushes |
| `Replay.dfy` | dead letters on JetStream and their replay |

## Where the code does not do what it says

Each of these is a lemma with a concrete run or input, next to the exact condition under which the
promise holds.

- `invoker/retry.go` says Attempts is the number of handler runs. In its own failure it is one short
  exactly when the last call ran the handler and the handler's own error matches `ErrCircuitOpen`
  (`Retry.AttemptsAreHandlerRuns`; `Retry.HandlerCircuitOpenIsNotCounted` is such a run).
- `local-bus.go` says EmitSync returns every failure that is not a duplicate and was not dead-lettered.
  When the bus's own publisher fails with an error that itself matches `ErrDuplicate` or
  `ErrDeadLettered`, a failure nobody stored comes back as nil: exactly the case
  `Sync.ReturnedExactly` excepts (`Sync.PublisherCanHide`). It is still reported.
- `failure.go` says a transport acknowledges a dead-lettered message. A message the chain
  dead-lettered and stored is given back instead exactly when the handler's error holds a context
  error and the subscription ended after the chain saw it, and comes back if deliveries are left
  (`Chain.StoredComesBackExactly`; `Chain.DeadLetteredCanComeBack` is such a delivery). Two of them
  store two records (`Chain.TwoRecordsStored`); without one, and without a panic outside the handler
  on a delivery the chain stored on, a whole life stores at most one (`Chain.LifeStoresOnce`).
- `history.go` says the shortened entry keeps the longest error text that fits. With escapes it may
  not: six quotation marks with six bytes left end up empty (`History.EscapedMayKeepLess`). Nor may it
  with runes of several bytes, even when the first try fits (`History.MoreRoomMayKeepMore`). For every
  text and every encoder that only expands, it keeps the longest, of all the rooms that shorten the
  text, exactly when none of at most eight rooms does better (`History.LongestExactly`). For text of
  single bytes two rooms decide: one more byte than the loop stopped at, and where it stopped without
  room for the truncation marker the first room with one; a first try that fits keeps the longest
  (`History.SingleByteLongestExactly`). An escape alone does no harm
  (`History.EscapedEndKeepsTheMost`). The byte bound always holds.

## A documented limit, and what it costs

- The rate limiter's key expires after one period. Nothing is promised about what that does to a
  bucket that is not full; it is invisible on every run, and the window bound holds on every run,
  exactly when the burst is at most the rate
  (`RateLimit.ExpiryInvisibleExactly`, `RateLimit.WindowBoundExactly`).

## Documented preconditions, and exactly what they are needed for

- Handlers are to emit with their own context. Whatever contexts they use, the in-process bus is free
  of deadlock exactly when its overflow policy does not block (`LocalBus.AnyContextIsSafeExactly`,
  whatever limits are asked for); under the blocking policy their own context is enough
  (`LocalBus.NoSelfEmitDeadlock`).
- `Wait` is to be called after `BeginShutdown`. A waiter can be stranded on a closed, idle bus exactly
  when the bus was not closed at the moment it blocked, whatever the other waiters did
  (`Lifecycle.StrandedExactly`).
- A replay without ToSubject goes to the subject in the dead letter. That is the subject of the message
  exactly when it is usable as a target, well-formed and at most 1024 bytes long
  (`Replay.ReturnsExactly`).
- The breaker gauge has one label per handler name. With several breakers of one name it shows the
  last report that counts within its own breaker (`Gauge.LastFreshShows`, `Gauge.NextReport`).

## Model

| member | source | states |
|---|---|---|
| Lifecycle.Lifecycle.Admit | lifecycle.go:112-127 | the admission rule, with a fresh release function exactly when the work was counted |
| Lifecycle.Lifecycle.Track | lifecycle.go:133-143 | work a broker already delivered is counted unless forced or done |
| Lifecycle.Lifecycle.Release | lifecycle.go:89-102 | idempotent: the first call of a release function counts one unit out, later ones change nothing |
| Lifecycle.Lifecycle.BeginShutdown | lifecycle.go:175-180 | closes admission and nothing else |
| Lifecycle.Lifecycle.WaitRound | lifecycle.go:186-210 | one round observes the idle state for good, or names the channel to block on |
| Lifecycle.Lifecycle.Interrupt | lifecycle.go:215-223 | forces and closes the bus and cancels its context |
| Lifecycle.InflightIsUnreleased | lifecycle.go:89-143 | in every interleaving the in-flight count equals the number of unreleased units of work |
| Lifecycle.NothingRunsAfterClose | lifecycle.go:112-210 | once any Wait returned nil, or after Interrupt, no later run hands out work; after nil the count stays zero |
| Lifecycle.IdleChannelClosedOnce | lifecycle.go:89-102 | no release in any reachable state closes a channel that is already closed |
| Lifecycle.IdleClosedBusAdmitsNothing | lifecycle.go:112-127 | a closing bus that is idle is never woken up by emits, nested ones included |
| Lifecycle.ClosingAdmitsNestedOnly | lifecycle.go:104-127 | while closing, an emit is admitted exactly when it is nested, the deadline has not passed and work is in flight |
| Lifecycle.AdmittedExactly | lifecycle.go:112-127 | in every interleaving an emit is admitted if and only if no Wait returned nil, no deadline passed, and nobody began a shutdown or the emit comes from a handler while work is in flight; a refused one changes nothing |
| Lifecycle.TrackedExactly | lifecycle.go:133-143 | in every interleaving work a broker already delivered is counted if and only if no Wait returned nil and no deadline passed |
| Lifecycle.NoLostWakeup | lifecycle.go:186-210 | a waiter that blocked on a closed bus, whatever the others did, sits on a closed channel or on the current open one with work in flight; an idle bus lets it return nil |
| Lifecycle.StrandedExactly | lifecycle.go:182-210 | a waiter that blocks can be stranded by some continuation if and only if the bus was not closed when it blocked |
| LocalBus.NewConfig | local-bus.go:145-151 | the limits in force are those asked for, or 16 slots and room for 1024 where one is not positive |
| LocalBus.InvStep | local-bus.go:300-525 | every step of Emit, dispatch, parked tasks, handlers and shutdown keeps the slot, queue and in-flight accounts and the shape of every emit and pair |
| LocalBus.TokensMatchHolders | local-bus.go:393-525 | slot tokens equal the tasks holding a slot (at most MaxConcurrent), queue tokens the budgeted parked tasks (at most QueueSize), in-flight the admitted emits plus unfinished tasks |
| LocalBus.PairEndsAtMostOnce | local-bus.go:393-525 | an admitted (emit, handler) pair has ended by one run or one report, never both, exactly in its ended phases |
| LocalBus.EndIsFinal | local-bus.go:507-591 | no later step adds a run or a report to a pair that ended |
| LocalBus.ShutdownNilMeansAllEnded | local-bus.go:266-272 | when Shutdown returns nil every admitted pair ended exactly once, every Emit returned, and nothing changes afterwards |
| LocalBus.OnlyBlockWaits | local-bus.go:412-447 | an emitter waits for queue room only under the blocking policy, the unbounded policy takes no queue token, and under the others at most QueueSize tasks are parked |
| LocalBus.WaitingMeansFull | local-bus.go:426-441 | an emitter begins to wait for room only when the queue is full |
| LocalBus.OutsideRunsInSlots | local-bus.go:400-410 | a handler of an emit made outside the bus runs only in an execution slot; only a nested emit runs its handlers without one |
| LocalBus.PairsEndExactly | local-bus.go:393-525 | in every interleaving exactly which steps run a handler or report in its place, each for one pair: without a deadline and an emitter giving up a report comes only from the drop policy with the queue full |
| LocalBus.CancelStopsParked | local-bus.go:449-474 | in every interleaving a task that got its slot runs its handler if and only if the bus was not cancelled, and is reported otherwise; once cancelled only emitters start handlers |
| LocalBus.EmitAdmittedExactly | local-bus.go:301-325 | an emit from outside a handler creates one queued pair per subscribed handler if and only if the bus was not interrupted, no Shutdown returned nil, and no shutdown began or the emit carries a handler context while work is in flight |
| LocalBus.HandlerEmitAdmittedExactly | local-bus.go:301-325 | an emit from inside a handler creates its pairs if and only if the bus was not interrupted, and no shutdown began or the handler emits with its own context |
| LocalBus.EveryHandlerRuns | local-bus.go:393-525 | under every policy nothing is reported in place of a run unless a deadline passes, an emitter gives up or the drop policy finds its queue full; after a nil Shutdown every handler ran exactly once |
| LocalBus.NestedGoesOn | local-bus.go:400-447 | an emit that cannot wait for queue room, nested or under a policy that does not block, always has an enabled step at or below it |
| LocalBus.NoSelfEmitDeadlock | local-bus.go:393-474 | a reachable state with unfinished work always has an enabled step: with handlers emitting in their own context under every policy, and with any contexts where the policy does not block |
| LocalBus.InternalShrinks | local-bus.go:393-525 | every step of the bus and its handlers, and an emitter giving up, shrinks the backlog |
| LocalBus.EveryScheduleDrains | local-bus.go:393-525 | without new emits every schedule, shutdown, deadline and emitters giving up included, makes no more progress steps than the backlog, and where none is left every pair ended exactly once; no fairness assumed |
| LocalBus.ForeignContextCanDeadlock | local-bus.go:412-441 | for all positive limits a run of the blocking policy to a stuck state: every slot's handler waits for queue room with a foreign context |
| LocalBus.AnyContextIsSafeExactly | local-bus.go:400-447 | whatever limits are asked for, no run with whatever contexts gets stuck with work left, if and only if the overflow policy does not block |
| Sync.EmitSync | local-bus.go:343-374 | handlers run in registration order until the caller's context is done; the result is the refused admission, or the join of exactly the unhandled failures so far and the context error |
| Sync.FailuresAreExact | local-bus.go:360-372 | every unhandled failure is a part under its own handler, in registration order, and nothing else is |
| Sync.NilMeansHandled | local-bus.go:328-332 | the joined error is nil exactly when no handler left an unhandled failure |
| Sync.JoinedMatches | errors.go:80-85 | errors.Is on the joined error finds exactly what some part matches |
| Sync.FailedIsReported | local-bus.go:528-591 | a failed handler always returns an error, and one that is not a duplicate is reported exactly once |
| Sync.ReturnedExactly | local-bus.go:317-334 | a failure is returned if and only if it is no duplicate and neither the chain nor the publisher of the bus stored it, and that publisher did not fail with a duplicate or a dead letter itself; the error returned still matches all the handler error did |
| Sync.PublisherCanHide | local-bus.go:317-334 | a failing publisher whose error matches ErrDuplicate: nobody stored the failure and EmitSync returns nil |
| Sync.NilHidesNothing | local-bus.go:343-374 | behind a nil result every handler succeeded, was a duplicate, or was reported exactly once |
| Drain.InvStep | jetstream/bus.go:537-598 | every step of subscribe, drain, force, wait and close keeps the drain invariant, on both transports |
| Drain.NoConsumerEscapes | jetstream/bus.go:457-468 | a consumer whose Subscribe succeeded is among those the drain waits for |
| Drain.SubscribesExactly | jetstream/bus.go:457-468 | a Subscribe succeeds if and only if no Shutdown call began before it registered; otherwise its consumer is stopped and left out |
| Drain.AwaitedWereTold | jetstream/bus.go:568-598 | while a call waits for the consumers each was told to drain, and once the guarded stop is over each was stopped |
| Drain.DrainedClosedOnce | jetstream/bus.go:537-584 | the drained channel has one owner, who finds it open when closing it |
| Drain.NilMeansDrained | jetstream/bus.go:537-584 | Shutdown returned nil: idle for good, and unless forced every subscribed consumer reported Closed |
| Drain.InTimeIsUnforced | jetstream/bus.go:537-584 | as long as no context of a Shutdown call expires nothing is forced: handlers are not interrupted, no call fails or takes a forcing path, and no subscribed consumer is stopped |
| Drain.InTimeReturnsNil | jetstream/bus.go:537-584 | and then, on an idle bus whose consumers all reported Closed, each call returns nil within 2n + 9 steps of its own and of the owner of the drain |
| Drain.ShutdownCanFinish | nats/bus.go:703-768 | and from any such state every call can return nil once the running handlers end and the consumers report Closed |
| Drain.ExpiredCallFails | jetstream/bus.go:537-584 | a call whose context expired never returns nil, whatever happens later |
| Drain.EveryCallDoesItsPart | jetstream/bus.go:587-598 | on JetStream the handlers are interrupted by a forced call only after every awaited consumer was stopped; on NATS the connection is closed before a call returns; a call fails only after the bus was interrupted |
| Drain.RecordsExactly | jetstream/bus.go:568-584 | in every interleaving a consumer counts as closed if and only if it reported Closed, the handler contexts as ended if and only if they were cancelled, and only a consumer that a Shutdown call took over is told to drain |
| Drain.SeenClosedIsInTime | jetstream/bus.go:568-584 | an owner that saw every consumer closed is in time whatever its context says since, and one that stops waiting earlier without an error gives way to a forced shutdown |
| Drain.ConnectionClosedOnceAndLate | nats/bus.go:703-780 | the connection closes at most once, and unforced only when the drain is over and no handler runs or will run |
| Drain.ExpiredCallReturns | jetstream/bus.go:537-598 | from the election on, no schedule takes more than 4n + 11 steps of a Shutdown call and of the caller inside the guarded stop, n the number of consumers, and until the call has returned one of them is enabled that needs no consumer, handler or other context |
| Drain.FollowedDrainEnds | nats/bus.go:703-768 | a caller that waits for another caller's drain waits for an owner, and once the owner's context expired at most 4n + 11 steps of the owner and of the caller inside the guarded stop close the drained channel on every schedule, one of them always enabled until then |
| Breaker.HandlerBreaker.MoveTo | invoker/circuit-breaker.go:95-108 | a change of state advances generation and sequence number together and keeps the failure count |
| Breaker.HandlerBreaker.Admit | invoker/circuit-breaker.go:206-239 | the admission rule: open timeout, single probe, probe lease |
| Breaker.HandlerBreaker.Record | invoker/circuit-breaker.go:245-287 | the completion rule: stale tokens ignored, thresholds, probe results |
| Breaker.InvStep | invoker/circuit-breaker.go:206-287 | every admission and completion, in any overlap, keeps token safety, the refinement to the history and the numbering of changes |
| Breaker.CurrentCall | invoker/circuit-breaker.go:245-287 | a completion that is not stale never meets an open breaker, and a half-open one only as the probe in flight |
| Breaker.SingleProbe | invoker/circuit-breaker.go:206-239 | half-open with a probe means exactly one uncompleted call of the current generation; half-open without one, or open, means none |
| Breaker.OnlyTheProbeCounts | invoker/circuit-breaker.go:245-287 | a completion in open changes nothing, and in half-open only the probe in flight can change anything |
| Breaker.StaleMeansOvertaken | invoker/circuit-breaker.go:245-252 | a completion is ignored exactly when since its admission the breaker changed state or a probe was superseded |
| Breaker.StateRefinesHistory | invoker/circuit-breaker.go:206-287 | state, failure count and success count are what the history of effective completions says they are |
| Breaker.ChangesExactlyOnThresholds | invoker/circuit-breaker.go:245-287 | opens exactly when the run of failures reaches max(FailureThreshold, 1); closes exactly after max(SuccessThreshold, 1) probe successes with no probe failure |
| Breaker.RunIsMaximal | invoker/circuit-breaker.go:245-287 | the failure run of a history is its maximal all-failure suffix |
| Breaker.AdmittedExactly | invoker/circuit-breaker.go:206-239 | in every overlap a call is admitted if and only if by the history the breaker is closed, or open and OpenTimeout passed since the last change to open, or half-open with no probe outstanding but such whose positive lease is over; it is the probe exactly when the breaker was not closed; a refused one changes nothing |
| Breaker.ChangesAreNamed | invoker/circuit-breaker.go:95-108 | every change of state carries its own reason, the time of the step and the failure run the history shows |
| Breaker.OverlappingFailuresOpen | invoker/circuit-breaker.go:245-270 | max(FailureThreshold, 1) calls that overlap and all fail open a fresh breaker |
| Breaker.ConsecutiveFailuresOpen | invoker/circuit-breaker.go:245-270 | as many consecutive failures as are missing to the threshold open a closed breaker |
| Breaker.SuccessfulProbesClose | invoker/circuit-breaker.go:206-287 | once the open timeout is over, max(SuccessThreshold, 1) successful probes close an open breaker, and in half-open as many as are missing |
| Breaker.OpenRefuses | invoker/circuit-breaker.go:206-287 | until the open timeout passed, every overlap of calls is refused and whatever completes leaves the breaker and its history unchanged |
| Breaker.ProbeKeepsItsSlot | invoker/circuit-breaker.go:206-239 | until the probe is recorded or its positive lease expires, every overlap of calls is refused and leaves the breaker unchanged |
| Breaker.LeaseHandsOver | invoker/circuit-breaker.go:222-232 | once the lease expired the next arrival takes over and the old probe's completion is ignored |
| Gauge.Observer.BreakerTransition | prometheus/observer.go:249-272 | a report counts only when its Seq is newer than the last one of the same breaker |
| Gauge.LastFreshShows | prometheus/observer.go:243-272 | whatever the order, the repetitions and the number of breakers of one name, the gauge shows the last report that counts, and nothing when none was made |
| Gauge.LastFreshIsNewest | prometheus/observer.go:243-272 | the report that counts last is the newest of its own breaker |
| Gauge.NewestWins | prometheus/observer.go:243-272 | with one breaker under a name the gauge shows its newest report, late and repeated ones aside |
| Gauge.NextReport | prometheus/observer.go:243-272 | a report moves the gauge exactly when it is newer than all that was delivered of its own breaker |
| Gauge.GaugeCatchesUp | prometheus/observer.go:249-272 | once the last transition of a breaker was delivered, in any order and among any others, the gauge shows its state as long as no other breaker's report counted after it |
| Errors.FirstIsFirst | failure.go:204-275 | the errors.As search finds the first matching node in depth-first order, and none exactly when there is none |
| Errors.WrapAddsOneSentinel | lifecycle.go:244-255 | wrapping with a sentinel adds that match and no other, and keeps Terminal and decode answers |
| Errors.DeadLetterMatches | failure.go:142-187 | what a dead-lettered and a failed dead-letter error match: their own sentinel, the publish error and the cause, nothing else |
| Errors.FailureMatches | failure.go:106-121 | a FailureError matches what its cause matches and the one sentinel its reason selects |
| Errors.ReasonSurvivesDeadLetter | failure.go:204-254 | the reason of any error tree is never empty and survives being dead-lettered |
| Errors.ReasonExactly | failure.go:204-254 | the reason of an error: a panic before everything, then the one the tree brings along, otherwise the first of the ranking that applies |
| Errors.AttemptsExactly | failure.go:260-275 | the attempt count: the one of Retry, otherwise none exactly for rejections in front of the handler and decode errors, and one for the rest |
| Errors.PanicAlone | invoke.go:48-51 | a panic matches ErrHandlerPanic and nothing else, and is terminal |
| Errors.TerminalMethodExactly | failure.go:305-311 | whether a tree is terminal by a method is for the first node that has one to say |
| Errors.ReasonAfterFailedPublish | failure.go:204-254 | it survives a failed publish exactly when the publish error holds no panic or other dead letter that hides it |
| Publish.PublishDeadLetter | dlq.go:159-183 | the bounded publish loop equals its recursive specification |
| Publish.AtMostOneStored | dlq.go:159-183 | at most three calls on a final delivery and one otherwise; only the last call can succeed, and a failing loop ran out of calls or of context |
| Publish.PublishesExactly | dlq.go:159-183 | at most three calls on a final delivery and one otherwise, fewer only after a success or when the context ended, and success if and only if one of the calls made succeeds |
| Settle.DisposeExactly | settle.go:63-91 | the disposition table as conditions that do not depend on the order of the checks |
| Settle.OutcomeExactly | scope.go:142-169 | the outcome of a handler run as conditions that do not depend on the order of the checks |
| Settle.WrapsExactly | lifecycle.go:244-255 | wrapping marks a context error whose cause is the shutdown and nothing else, and adds no other match |
| Settle.WrappedDecodes | failure.go:290-300 | whatever Decode returned counts as a decode error and matches what it matched |
| Settle.FailureScope.MarkReported | scope.go:76-87 | only the first report of a delivery wins |
| Settle.FailureScope.DeferHandlerDone | scope.go:91-102 | a result is deferred once, and only under a scope that settles |
| Settle.FailureScope.FlushHandlerDone | scope.go:106-120 | a deferred result is emitted once, with the outcome of the settlement |
| Settle.TransportErrorKeeps | lifecycle.go:244-255 | the transport's own wrapping never turns a failure into a duplicate or a dead letter, or back |
| Settle.SignalsExactlyOnce | settle.go:160-304 | one delivery through InvokeHandler and Settle: HandlerDone exactly once, Failure at most once and exactly when the Settlement names an outcome |
| Settle.QuietMeansDoneOrRedelivered | settle.go:160-233 | a delivery without a Failure is a success, a duplicate, or comes back |
| Settle.SettledExactly | settle.go:160-233 | the exact settlement of a failed delivery: given back at once if and only if the error counts as interrupted, with a delay if and only if a dead letter failed or the error does not end it here, and the exact stored record, outcome, reason, error and report |
| Settle.HandlerDoneExactly | invoke.go:82-132 | HandlerDone waits for the settlement exactly when the run failed or was turned away on the final delivery; otherwise it says how the run ended |
| Settle.NoDeliveryIsTheLast | settle.go:168-171 | a context without a Delivery is settled as the first and last one |
| Settle.OnlyTheFirstReport | scope.go:76-87 | a second report under one scope changes nothing, whatever it says |
| Settle.DetachedGoesOut | scope.go:91-102 | under a scope no Settle flushes, or with a result waiting already, HandlerDone goes out at once |
| Settle.FinalFailureIsReported | settle.go:160-233 | on a final delivery every error that is not a duplicate is reported |
| Settle.DeferredDoneAgreesWithFailure | settle.go:238-259 | a deferred HandlerDone carries the outcome of the Failure, with dlq_publish_failed shown as failed; without a Failure the message comes back |
| Settle.FlushedExactly | settle.go:238-259 | under any scope and whatever panics a deferred HandlerDone goes out once, as dead-lettered, dropped or interrupted when the settlement says so, as a retry or an interruption when the message comes back without a Failure, as failed otherwise |
| Settle.FailurePanicUnwinds | settle.go:265-304 | an observer that panics in Failure unwinds Settle if and only if it was called, and leaves no settlement |
| Settle.StoredExactly | settle.go:160-233 | whatever panics, Settle stores a record if and only if the error does not count as interrupted, nobody settled it before, it ends the message on this delivery, no panic came before the publisher answered and it accepted |
| Settle.DeadLetteredIsAckedUnlessInterrupted | settle.go:160-233 | a message the chain dead-lettered is acknowledged exactly when it does not count as interrupted |
| Message.MsgHandler | jetstream/bus.go:740-855 | exactly one broker action per delivery, with the action and the reports the specification gives, whatever panics outside the handler |
| Message.EveryVisitIsSound | jetstream/bus.go:740-1007 | for every delivery: at most one Failure; a message that comes back was neither reported nor stored; one that ends was reported, stored, or quietly acknowledged |
| Message.ReportNamesAction | jetstream/bus.go:982-1007 | the outcome of the reported Failure is the one the broker action calls for; without a Failure the message is acknowledged or comes back |
| Message.ActionExactly | jetstream/bus.go:982-1007 | without panics the exact broker action: Nak if and only if handed back or interrupted, acknowledged if and only if it succeeded, was a duplicate or was dead-lettered before, ended if and only if its error ends it and the publisher did not fail, and given back with a delay in every other case |
| Message.PanicActsExactly | jetstream/bus.go:753-791 | a panic outside the handler: a delay while nothing was stored or reported and deliveries are left, ended after that, and on the last delivery reported as dropped by a panic and ended |
| Message.ReportsOfUnhandled | jetstream/bus.go:806-833 | a message that cannot be decoded is reported as such unless its dead letter failed, and one handed back on its last delivery as interrupted |
| Message.NakNeverReports | jetstream/bus.go:753-791 | a message that is reported or stored is never given back for another delivery, panics included |
| Message.LifeWithPanics | jetstream/bus.go:740-1007 | over all deliveries, with any panics: at most one Failure and one stored record, and never a silent end other than a success or a duplicate |
| Message.LifeReportsExactlyOnce | jetstream/bus.go:740-855 | without panics a whole life ends in a quiet Ack of a success or duplicate, or with exactly one Failure |
| Retry.AttemptRing.Add | invoker/retry.go:89-99 | the ring holds the last attempts of everything ever added, up to its size |
| Retry.Invoke | invoker/retry.go:164-245 | the loop ends in the one way the script of calls and waits explains |
| Retry.ClassifyExactly | invoker/retry.go:101-146 | retried and terminal as conditions that do not depend on the order of the checks |
| Retry.EndIsDetermined | invoker/retry.go:164-245 | end, error, reason, attempt count and history follow from the script alone |
| Retry.AttemptsAreHandlerRuns | invoker/retry.go:164-245 | the handler runs at most max(MaxAttempts, 1) times, and Attempts is the number of runs unless the last call ran a handler whose error matches ErrCircuitOpen |
| Retry.StopsExactly | invoker/retry.go:164-245 | before max(MaxAttempts, 1) calls it stops only when the last one succeeded, was not to be retried or its wait was cut off; retries are exhausted exactly when all of them failed and were to be retried |
| Retry.HistoryIsTheLastAttempts | invoker/retry.go:76-99 | the history is exactly the last min(HistorySize, Attempts) attempts, oldest first, each with its error; size 0 means five and a negative one none |
| Retry.HandlerCircuitOpenIsNotCounted | invoker/retry.go:195-208 | the excepted case: two handler runs, one counted |
| Chain.FailureNeverTurnsNil | invoker/dlq.go:38-68 | the dead-letter invoker returns nil only for nil, keeps the original error in the tree, and says dead-lettered when a record was stored |
| Chain.ChainStoresExactly | invoker/dlq.go:38-68 | the chain publishes if and only if the error does not count as interrupted, nobody settled it before and it ends the message on this delivery, and stores a record if and only if its publisher then accepts; otherwise it returns the error as it is |
| Chain.StoredAtMostOnce | settle.go:192-232 | the chain and the transport never both store a record for one delivery |
| Chain.FailedDeadLetterIsNotRepeated | settle.go:192-232 | a failed dead letter of the chain is not published again by the transport |
| Chain.StoredComesBackExactly | settle.go:182-199 | a message the chain dead-lettered and stored is given back instead of acknowledged exactly when its error holds a context error and the subscription ended since; it comes back exactly when deliveries are left as well |
| Chain.DeadLetteredCanComeBack | invoker/dlq.go:38-68 | such a delivery, through the chain and Settle |
| Chain.LifeStoresOnce | jetstream/bus.go:740-1007 | over a whole life the chain's publisher and the transport's store at most one record together, unless a delivery the chain stored on meets that condition or panics outside the handler |
| Chain.TwoRecordsStored | settle.go:182-199 | two such deliveries of one message store two records |
| Chain.OneDelivery | invoker/dlq.go:38-68 | DLQ(Retry(CircuitBreaker(handler))) and Settle: bounded handler runs, one stored record at most, HandlerDone once, Failure at most once |
| Chain.TerminalAttemptIsDeadLettered | invoker/dlq.go:38-68 | what Retry calls terminal is terminal for every delivery, and the chain dead-letters it at once |
| Chain.RecordKeepsAttempts | failure.go:260-275 | the attempt count of Retry's failure is found again through the dead-letter wrapping |
| Uuid.Generator.Next | id.go:33-59 | the next timestamp and counter for any clock reading, and the text of the sixteen bytes |
| Uuid.FormatUUID | id.go:61-73 | every hexadecimal digit and dash of the 36 characters |
| Uuid.IdsStrictlyIncrease | id.go:33-73 | for every clock, frozen or rolled back, and every random input, ids of one generator increase strictly as strings below 2^48 ms |
| Uuid.IdShape | id.go:45-73 | 36 characters, dashes in place, version 7, variant 10 |
| Uuid.IdCarries | id.go:33-59 | the bytes of an id spell its timestamp, version, counter and variant, and carry 62 random bits unchanged; a counter that starts again starts from 11 random bits |
| Uuid.TextOrder | id.go:61-73 | byte order is text order |
| Uuid.DriftBound | id.go:33-59 | never behind the clock, and ahead of the largest reading by at most one millisecond per 2049 ids since the clock last advanced |
| RateLimit.Entry.Allow | redis/rate-limit.go:24-54 | one run of the script on the stored hash, with the new expiry |
| RateLimit.BucketBounds | redis/rate-limit.go:35-54 | the stored tokens stay between zero and the burst |
| RateLimit.WindowBoundWithoutExpiry | redis/rate-limit.go:24-54 | in every window the allowed calls are at most the burst plus what the window refills |
| RateLimit.AllowedExactly | redis/rate-limit.go:24-54 | on every run a call is allowed if and only if it fits every window that ends with it: the burst plus what the window refills |
| RateLimit.WindowBound | redis/rate-limit.go:24-54 | the same with expiring keys, when the burst is at most the rate |
| RateLimit.WindowBoundExactly | redis/rate-limit.go:24-54 | the bound holds on every run and window with expiring keys if and only if the burst is at most the rate |
| RateLimit.ExpiryIsInvisible | redis/rate-limit.go:24-54 | every call gets the same answer as on a server that never drops the key |
| RateLimit.ExpiryInvisibleExactly | redis/rate-limit.go:24-54 | that holds on every run if and only if the burst is at most the rate |
| Truncate.RuneBoundary | dlq.go:294-299 | the loop stops at the boundary its specification names |
| Truncate.BoundaryIsLargestCut | dlq.go:292-299 | the boundary is the largest index at or below n that splits no rune |
| Truncate.CutPoints | dlq.go:292-299 | in clean text the indices that split no rune are exactly the ends and the start bytes |
| Truncate.RunesExactly | dlq.go:267-290 | bytes are read as a rune if and only if they begin with the UTF-8 encoding of a Unicode scalar value, of the same length; the control characters are exactly U+0000-001F and U+007F-009F |
| Truncate.CleansExactly | dlq.go:267-290 | behind clean text one U+FFFD stands for a whole run of invalid bytes and one space for a control character, and clean text is kept |
| Truncate.BoundedAndPrintable | dlq.go:267-290 | at most max bytes, valid UTF-8, no control character |
| Truncate.UnchangedExactly | dlq.go:267-290 | a value is left alone exactly when it is clean and short enough |
| Truncate.Idempotent | dlq.go:267-290 | truncating twice at the same limit is truncating once |
| Truncate.ShortenedKeepsTheMost | dlq.go:267-290 | a shortened value keeps the longest prefix of whole runes that fits, and the marker when there is room |
| History.ScanBack | history.go:41-76 | the backward scan finds the longest contiguous suffix that fits |
| History.ShrinkHistoryEntry | history.go:87-107 | the shrink loop ends, whatever the escaping expands, with the result its specification names |
| History.ShrinkFromFits | history.go:87-107 | the shrunk entry fits the budget and is the entry at some smaller room, or with empty text |
| History.EncodeHistoryHeader | history.go:41-76 | at most max(cap, 2) bytes; the longest suffix that fits, one shortened newest entry, or an empty array; the flag says exactly whether something was dropped or shortened |
| History.JoinedByCommas | history.go:75 | the entries stand in order with one comma between neighbours |
| History.LongestExactly | history.go:84-107 | for every text, budget and encoder that only expands, the shortened entry keeps the longest text that fits, of all rooms up to the whole text, if and only if none of at most eight rooms does better |
| History.EntryExpands | history.go:109-123 | an entry escaped as encoding/json escapes it with HTML escaping off, quotation marks, backslashes, U+2028, U+2029 and bytes that are not UTF-8, is an encoder the exact condition is about, whatever its other fields |
| History.LargestRoomExactly | history.go:96-105 | where the entry grows with every byte of room, one retry is enough, and the loop stops at the largest room that fits if and only if the first try fits or the room above the retry does not |
| History.SingleByteLongestExactly | history.go:84-107 | for single-byte text, every budget and every number of retries: the entry keeps the longest text that fits if and only if one more byte of room is too much and, where the loop stopped without room for the marker, the first room with one is too; a first try that fits is the longest |
| History.OneRetryIsEnough | history.go:96-105 | for single-byte text one retry ends the loop, unless it crosses the room the marker needs |
| History.UnescapedKeepsTheMost | history.go:84-107 | without escaping the first try fits and keeps as much text as the budget allows |
| History.EscapedMayKeepLess | history.go:84-107 | in every entry, six quotation marks with six bytes left end up empty although three would fit |
| History.MoreRoomMayKeepMore | history.go:84-107 | in every entry, a text whose first try fits and keeps 13 bytes although a 14-byte one fits |
| History.EscapedEndKeepsTheMost | history.go:84-107 | in every entry, an escape that is cut off leaves the longest text that fits |
| Dedup.SlogObserver.Record | slog_observer.go:100-141 | logged at once or only counted, with a timer for the first repeat of a window |
| Dedup.SlogObserver.Sweep | slog_observer.go:124-130 | a full table drops exactly the entries whose window elapsed with nothing held |
| Dedup.SlogObserver.FlushKey | slog_observer.go:145-154 | a timer takes out its own entry and no newer one of the same key |
| Dedup.SlogObserver.Flush | slog_observer.go:170-190 | the table is emptied and every entry with a count handed over exactly once |
| Dedup.InvStep | slog_observer.go:100-190 | every record, timer, flush and summary, in any order, keeps conservation for every key |
| Dedup.NoRecordIsLost | slog_observer.go:100-190 | per key: records = lines logged at once + counts in summaries + counts taken out but not yet written + count held |
| Dedup.LoggedExactly | slog_observer.go:100-141 | in every interleaving a record is logged at once if and only if deduplication is off, its key has no open window, or nothing was held back and Every passed since the line that began it; otherwise it is counted; and exactly when a window is open afterwards |
| Dedup.TimersAndBounds | slog_observer.go:100-190 | every held count has a timer pending, no entry is summarised twice, at most 1024 keys |
| Dedup.NoEmptySummary | slog_observer.go:145-190 | in every interleaving no summary says zero, and a timer or a pending summary belongs to an entry that holds a count |
| Dedup.GoneIsFrozen | slog_observer.go:145-166 | an entry that left the table is never counted on again, so its summary may be written outside the lock |
| Dedup.FlushLeavesNothingHeld | slog_observer.go:170-190 | after Flush every record is on a line, in a summary, or in a summary about to be written |
| Replay.DlqCopyHeaders | jetstream/dlq.go:188-205 | exactly the headers outside the broker's and the failure's own, and the original message id |
| Replay.Publish | jetstream/dlq.go:104-170 | one send, to the prefix and the subject or event name, a second one with minimal headers only after a too-large payload; whichever is stored keeps the envelope, the original headers, the subject to go back to, the trace and, on the first send, the original message id |
| Replay.ReplayHeadersLoop | jetstream/replayer.go:284-296 | exactly the headers outside the three reserved prefixes |
| Replay.CyclesKeepTheMessage | jetstream/replayer.go:203-296 | any number of dead-letter and replay cycles keeps the envelope bytes and exactly the user's headers; of the reserved ones only the last replay's marks are left |
| Replay.ReturnsExactly | jetstream/replayer.go:209-316 | a dead letter is replayed to the subject of its message if and only if that subject is usable as a target, well-formed and at most 1024 bytes long |
| Replay.CyclesReturnToSubject | jetstream/replayer.go:209-264 | any number of cycles without ToSubject brings a message whose subject is usable, well-formed and at most 1024 bytes long back to it, each time to a usable target |
| Replay.ToSubjectWins | jetstream/replayer.go:211-214 | with ToSubject set every dead letter goes there |
| Replay.PlacesKeepApart | jetstream/dlq.go:172-183 | a dead letter is published under the prefix and never on the bare prefix, and messages of different subjects go to different places |
| Replay.ShareExactly | jetstream/replayer.go:137-199 | one round takes the first records of its batch, at most 64 and no more than the limit leaves |
| Replay.VerdictExactly | jetstream/replayer.go:137-199 | how a round ends the call: a nil error only when the limit is reached or the stream is drained with nothing gone wrong, and no broker error gets lost unless a record failed before it |
| Replay.ReplayOne | jetstream/replayer.go:203-280 | one record is acknowledged exactly when it was republished, and counted accordingly |
| Replay.ReplayBatch | jetstream/replayer.go:176-192 | within a batch the first failure ends publishing and the rest is given back uncounted |
| Replay.BooksAt | jetstream/replayer.go:176-192 | a record is acknowledged exactly when it and all before it replayed, and published only if all before it did |
| Replay.Replay | jetstream/replayer.go:137-199 | every record taken is settled once; Replayed equals the acknowledgements and never exceeds a positive limit; at most one failure; the error or nil of the first round that ends the call |

## Left out

- EmitSync in the dispatch state: it takes no slot and no queue room, so its one admission and its inline runs are not steps of `LocalBus`; `Sync` models what it returns.
- NATS request-reply, and the retry of a JetStream publish with its backoff.
- Dispatch and drains on values: `LocalBus` and `Drain` are transition systems and not classes, because their steps block on channels across goroutines; the fields appear as the fields of one state value.
- Rejected emits: an emit refused at admission creates no pair; its one report is not part of the dispatch state.
- A panic inside a report callback of the in-process bus, which the code recovers, is not modelled.
- InvokeHandler and Settle on values: they are functions whose result says whether they unwound; only the scope and the guard are classes, because Dafny has no exceptions.
- User-defined Is, As and Unwrap methods that do not follow the tree, `runtime.Goexit` in a handler, and error text.
- Handler timeouts and how handler contexts are derived; the moments at which contexts end are inputs.
- msg.Metadata failing: the delivery count is then only a lower bound; the model takes the count as given.
- A lost acknowledgement: the broker is taken to carry out every action it is given.
- The breaker's `classify`: which errors count as success, failure or neutral is an input of `Record`, as are `State` and the reports of transitions.
- Delays: retry, publish and redelivery backoff; the model keeps the order of attempts and not their timing.
- Message.LifeOf: a finite maximum delivery count; unlimited redelivery has no end to speak about.
- Uuid.Generator.Next: timestamps are unbounded naturals; the order of ids is claimed below 2^48 ms, and wrap-around of the 64-bit fields is not modelled.
- Sequence numbers and generations of the breaker are unbounded; wrap-around of the 64-bit counters is not modelled.
- RateLimit.Entry.Allow: exact real arithmetic instead of Lua numbers and their decimal storage; limits are meaningful (period positive, rate and burst not negative) where a bound is claimed.
- History.EncodeHistoryHeader: how an attempt is marshalled is a parameter, so the validity of the JSON text itself is not stated; `History.Entry` is the form encoding/json gives it for text without control characters, which is all the code passes; the length cap of one error text in the code, the largest integer, is not reached.
- Replay.DlqCopyHeaders: header names are folded case-insensitively over ASCII letters only.
- Replay.Publish: encoding an event that has no envelope bytes, and how the failure header values are produced, are inputs.
- Replay.Replay: the checks before the loop (empty stream name, consumer creation) and the spans.
- Metadata, registry, plain chain composition, idempotency store and the fan-out observer: their properties are a counter, an induction or a table.
- Spans, metrics registration, log formatting, log levels, stack capture and option plumbing.
