/** The synchronous emit of the in-process bus (EmitSync and execute in local-bus.go): every handler
    in registration order on the caller's goroutine, and one joined error. */
module Sync {
  import opened Base
  import opened Errors
  import opened Settle

  /** A local bus never redelivers: every delivery is the final one. */
  const ONCE := Delivery(1, 1)

  /** What execute returns: the error of the Settlement when it has one, the handler's otherwise. */
  function Execute(h: Handled): Option<Error> {
    if h.err.None? then None
    else
      var r := HandleOnce(h, Some(ONCE));
      if r.res.err.Some? then r.res.err else Some(TransportError(h, h.err.value))
  }

  /** What EmitSync keeps of a handler's result: a dead letter and a duplicate are handled
      outcomes. */
  function Unhandled(r: Option<Error>): Option<Error> {
    if r.Some? && !Is(r.value, DeadLettered) && !Is(r.value, Duplicate) then r else None
  }

  function AllUnhandled(rs: seq<Option<Error>>): (us: seq<Option<Error>>)
    ensures |us| == |rs|
  {
    seq(|rs|, i requires 0 <= i < |rs| => Unhandled(rs[i]))
  }

  /** One part of the joined error: a HandlerError naming its handler, or the caller's context. */
  datatype Part = HandlerError(handler: nat, err: Error) | ContextError(err: Error)

  function Results(hs: seq<Handled>): (rs: seq<Option<Error>>)
    ensures |rs| == |hs|
  {
    seq(|hs|, i requires 0 <= i < |hs| => Execute(hs[i]))
  }

  function FailuresOf(us: seq<Option<Error>>): seq<Part> {
    if us == [] then []
    else
      var n := |us| - 1;
      FailuresOf(us[..n]) + (if us[n].Some? then [HandlerError(n, us[n].value)] else [])
  }

  function TreeOf(p: Part): Error {
    match p
    case HandlerError(_, err) => Wrapped([err])
    case ContextError(err) => err
  }

  /** errors.Join */
  function Joined(parts: seq<Part>): Option<Error> {
    if parts == [] then None else Some(Wrapped(Trees(parts)))
  }

  function Trees(parts: seq<Part>): seq<Error> {
    seq(|parts|, i requires 0 <= i < |parts| => TreeOf(parts[i]))
  }

  /** rs are what execute returns for each handler, done(k) is the error of the caller's context
      before handler k, and refused the answer of the admission. */
  method EmitSync(rs: seq<Option<Error>>, refused: Option<Error>, done: nat -> Option<Error>)
    returns (err: Option<Error>, ran: nat)
    ensures ran <= |rs|
    ensures rs == [] ==> err == None
    ensures rs != [] && refused.Some? ==> ran == 0 && err == refused
    ensures refused.None? ==>
              && (forall k: nat | k < ran :: done(k).None?)
              && (ran < |rs| ==> done(ran).Some?)
              && err == Joined(FailuresOf(AllUnhandled(rs)[..ran])
                               + if ran < |rs| then [ContextError(done(ran).value)] else [])
  {
    hide Unhandled, Joined, FailuresOf;
    ghost var us := AllUnhandled(rs);
    NoFailures(us);
    assert FailuresOf(us[..0]) + [] == [];
    if rs == [] {
      return None, 0;
    }
    if refused.Some? {
      return refused, 0;
    }
    var errs: seq<Part> := [];
    ran := 0;
    while ran < |rs|
      invariant ran <= |rs| && errs == FailuresOf(us[..ran])
      invariant forall k: nat | k < ran :: done(k).None?
    {
      if done(ran).Some? {
        return Joined(errs + [ContextError(done(ran).value)]), ran;
      }
      var left := Unhandled(rs[ran]);
      OneMore(us, ran);
      if left.Some? {
        errs := errs + [HandlerError(ran, left.value)];
      }
      ran := ran + 1;
    }
    assert FailuresOf(us[..ran]) + [] == errs;
    err := Joined(errs);
  }

  lemma NoFailures(us: seq<Option<Error>>)
    ensures FailuresOf(us[..0]) == [] && Joined([]) == None
  {
  }

  lemma OneMore(us: seq<Option<Error>>, k: nat)
    requires k < |us|
    ensures FailuresOf(us[..k + 1])
            == if us[k].Some? then FailuresOf(us[..k]) + [HandlerError(k, us[k].value)] else FailuresOf(us[..k])
  {
    assert us[..k + 1][..k] == us[..k];
  }

  /** Every part names a handler whose failure was not handled, and carries its error. */
  ghost predicate Sound(us: seq<Option<Error>>, f: seq<Part>) {
    forall i | 0 <= i < |f| ::
      f[i].HandlerError? && f[i].handler < |us| && us[f[i].handler] == Some(f[i].err)
  }

  ghost predicate InOrder(f: seq<Part>)
    requires forall i | 0 <= i < |f| :: f[i].HandlerError?
  {
    forall i, j | 0 <= i < j < |f| :: f[i].handler < f[j].handler
  }

  /** Every unhandled failure is in the joined error, under its own handler and in registration
      order, and nothing else is. */
  lemma {:induction false} FailuresAreExact(us: seq<Option<Error>>)
    ensures Sound(us, FailuresOf(us)) && InOrder(FailuresOf(us))
    ensures forall k | 0 <= k < |us| && us[k].Some? :: HandlerError(k, us[k].value) in FailuresOf(us)
  {
    if us != [] {
      var n := |us| - 1;
      var before := FailuresOf(us[..n]);
      FailuresAreExact(us[..n]);
      assert us[..n + 1] == us;
      OneMore(us, n);
      forall k | 0 <= k < |us| && us[k].Some? ensures HandlerError(k, us[k].value) in FailuresOf(us) {
        if k < n {
          assert us[..n][k] == us[k] && HandlerError(k, us[k].value) in before;
        } else {
          assert FailuresOf(us)[|before|] == HandlerError(n, us[n].value);
        }
      }
    }
  }

  /** The joined error is nil exactly when every handler succeeded or was handled. */
  lemma NilMeansHandled(us: seq<Option<Error>>)
    ensures Joined(FailuresOf(us)).None? <==> forall k | 0 <= k < |us| :: us[k].None?
  {
    FailuresAreExact(us);
    if FailuresOf(us) != [] {
      assert FailuresOf(us)[0].HandlerError?;
    }
  }

  lemma {:induction false} AnyOf(es: seq<Error>, s: Sentinel)
    ensures MatchIn(NodesOf(es), s) <==> exists k :: 0 <= k < |es| && Is(es[k], s)
  {
    if es != [] {
      AnyOf(es[1..], s);
      MatchConcat(Nodes(es[0]), NodesOf(es[1..]), s);
      if exists k :: 0 <= k < |es[1..]| && Is(es[1..][k], s) {
        var k :| 0 <= k < |es[1..]| && Is(es[1..][k], s);
        assert Is(es[k + 1], s);
      }
      if exists k :: 0 < k < |es| && Is(es[k], s) {
        var k :| 0 < k < |es| && Is(es[k], s);
        assert Is(es[1..][k - 1], s);
      }
    }
  }

  lemma WrappedMatches(es: seq<Error>, s: Sentinel)
    ensures Is(Wrapped(es), s) <==> exists k :: 0 <= k < |es| && Is(es[k], s)
  {
    var w := Wrapped(es);
    AnyOf(es, s);
    MatchConcat([w], NodesOf(es), s);
    assert Nodes(w) == [w] + NodesOf(es);
  }

  lemma PartMatches(p: Part, s: Sentinel)
    ensures Is(TreeOf(p), s) <==> Is(p.err, s)
  {
    if p.HandlerError? {
      WrappedMatches([p.err], s);
      assert [p.err][0] == p.err;
    }
  }

  /** errors.Is on the joined error finds exactly what some part matches. */
  lemma JoinedMatches(parts: seq<Part>, s: Sentinel)
    requires parts != []
    ensures Is(Joined(parts).value, s) <==> exists k :: 0 <= k < |parts| && Is(parts[k].err, s)
  {
    WrappedMatches(Trees(parts), s);
    forall k | 0 <= k < |parts| ensures Is(Trees(parts)[k], s) <==> Is(parts[k].err, s) {
      PartMatches(parts[k], s);
    }
    if exists k :: 0 <= k < |parts| && Is(parts[k].err, s) {
      var k :| 0 <= k < |parts| && Is(parts[k].err, s);
      assert Is(Trees(parts)[k], s);
    }
  }

  /** A failed handler never looks like a success: it returns an error, and unless that error is a
      duplicate the failure was reported exactly once, handled or not. */
  lemma FailedIsReported(h: Handled)
    ensures Execute(h).None? <==> h.err.None?
    ensures h.err.Some? && !Is(h.err.value, Duplicate) ==> |HandleOnce(h, Some(ONCE)).scope.failures| == 1
  {
    if h.err.Some? && !Is(h.err.value, Duplicate) {
      FinalFailureIsReported(h, Some(ONCE));
    }
  }

  /** The bus's publisher failed with an error that is itself a duplicate or a dead letter. */
  ghost predicate HiddenByPublisher(h: Handled) {
    && h.err.Some?
    && var e := TransportError(h, h.err.value);
       FailsWith(e, ONCE, IsInterrupted(h.atSettle, e), h.publisher, Duplicate)
       || FailsWith(e, ONCE, IsInterrupted(h.atSettle, e), h.publisher, DeadLettered)
  }

  /** Exactly which failures EmitSync returns: those that are no duplicate and that neither the chain nor
      the bus's own publisher stored, unless that publisher failed with an error of this kind, which
      then hides them. The error returned still is the handler's. */
  lemma ReturnedExactly(h: Handled)
    ensures var out := Unhandled(Execute(h));
            && (out.Some? <==>
                  && h.err.Some? && !Is(h.err.value, Duplicate) && !Is(h.err.value, DeadLettered)
                  && !HandleOnce(h, Some(ONCE)).stored && !HiddenByPublisher(h))
            && (out.Some? ==> forall t | Is(h.err.value, t) && t != HandlerTimeout && t != ShutdownInterrupted ::
                                Is(out.value, t))
  {
    hide HandleOnce, Is, FailsWith, Answers;
    if h.err.Some? {
      SettledExactly(h, Some(ONCE));
      StoredIsLettered(h, Some(ONCE));
      SettledErrorIs(h, Some(ONCE), Duplicate);
      SettledErrorIs(h, Some(ONCE), DeadLettered);
      if HandleOnce(h, Some(ONCE)).res.err.None? {
        NothingHidden(h);
      }
      forall t | t != HandlerTimeout && t != ShutdownInterrupted
        ensures Is(TransportError(h, h.err.value), t) <==> Is(h.err.value, t)
      {
        TransportErrorKeeps(h, h.err.value, t);
      }
    }
  }

  /** Where the settlement has no error of its own, nothing was published. */
  lemma NothingHidden(h: Handled)
    requires h.err.Some? && HandleOnce(h, Some(ONCE)).res.err.None?
    ensures !HiddenByPublisher(h)
  {
    hide HandleOnce, Is, EndsMessage, Publish.Loop;
    SettledExactly(h, Some(ONCE));
  }

  /** A publisher that fails every call with a duplicate error. */
  const ECHOES := Publish.Publisher((i: nat) => Some(Plain(Duplicate)), (i: nat) => false)

  lemma EchoFacts()
    ensures var e := Plain(Opaque(1));
            && !AlreadySettled(e) && !Is(e, DeadLetterFailed) && !Errors.ContextError(e) && EndsMessage(e, ONCE)
    ensures Refuses(Some(ECHOES), ONCE) && Is(Publish.Loop(ECHOES, true).err.value, Duplicate)
  {
    PlainAlone(Opaque(1));
    PlainAlone(Duplicate);
    Publish.PublishesExactly(ECHOES, true);
  }

  /** Such a publisher hides a failure that nobody stored: the handler fails, the dead letter fails three
      times, and EmitSync returns nil. */
  lemma PublisherCanHide()
    ensures var calm := Context(false, None);
            var h := Handled(Some(Plain(Opaque(1))), calm, calm, calm, false, Some(ECHOES));
            !HandleOnce(h, Some(ONCE)).stored && Unhandled(Execute(h)).None?
  {
    hide HandleOnce, Is, EndsMessage, AlreadySettled, Unhandled, Execute, Publish.Loop;
    var calm := Context(false, None);
    var h := Handled(Some(Plain(Opaque(1))), calm, calm, calm, false, Some(ECHOES));
    EchoFacts();
    assert TransportError(h, Plain(Opaque(1))) == Plain(Opaque(1));
    SettledExactly(h, Some(ONCE));
    ReturnedExactly(h);
  }

  /** So a nil EmitSync that ran every handler hides nothing: each of them succeeded, was a
      duplicate, or was reported exactly once. */
  lemma NilHidesNothing(hs: seq<Handled>, k: nat)
    requires k < |hs| && Joined(FailuresOf(AllUnhandled(Results(hs)))).None?
    ensures Unhandled(Execute(hs[k])).None?
    ensures hs[k].err.None? || Is(hs[k].err.value, Duplicate) || |HandleOnce(hs[k], Some(ONCE)).scope.failures| == 1
  {
    NilMeansHandled(AllUnhandled(Results(hs)));
    assert AllUnhandled(Results(hs))[k].None?;
    FailedIsReported(hs[k]);
  }
}
