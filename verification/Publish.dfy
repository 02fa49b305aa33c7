/** The bounded publish loop behind every dead letter (dlq.go). */
module Publish {
  import opened Base
  import Errors

  const ATTEMPTS_FINAL := 3

  /** One publisher facing one record: what its i-th call returns (None is success) and whether
      the context ended during the wait after that call. */
  datatype Publisher = Publisher(answer: nat -> Option<Errors.Error>, gone: nat -> bool)

  /** Calls made, and the last error, None when the record was stored. */
  datatype Report = Report(calls: nat, err: Option<Errors.Error>)

  function Budget(final: bool): nat {
    if final then ATTEMPTS_FINAL else 1
  }

  function PublishFrom(p: Publisher, budget: nat, i: nat): Report
    requires i < budget
    decreases budget - i
  {
    if p.answer(i).None? then Report(i + 1, None)
    else if i == budget - 1 || p.gone(i) then Report(i + 1, p.answer(i))
    else PublishFrom(p, budget, i + 1)
  }

  function Loop(p: Publisher, final: bool): Report {
    PublishFrom(p, Budget(final), 0)
  }

  method PublishDeadLetter(p: Publisher, final: bool) returns (r: Report)
    ensures r == Loop(p, final)
  {
    var attempts := 1;
    if final {
      attempts := ATTEMPTS_FINAL;
    }
    var i := 0;
    while i < attempts
      invariant 0 <= i < attempts
      invariant PublishFrom(p, Budget(final), i) == Loop(p, final)
      decreases attempts - i
    {
      var err := p.answer(i);
      if err.None? {
        return Report(i + 1, None);
      }
      if i == attempts - 1 || p.gone(i) {
        return Report(i + 1, err);
      }
      i := i + 1;
    }
  }

  /** For every publisher: at least one call and at most three on a final delivery, one otherwise;
      every call but the last failed while the context was alive; the last one stored the record
      exactly when the loop reports success; and a failing loop ran out of calls or of context.
      So at most one call of a loop ever succeeds. */
  lemma {:induction false} AtMostOneStored(p: Publisher, budget: nat, i: nat)
    requires i < budget
    ensures var r := PublishFrom(p, budget, i);
            && i < r.calls <= budget
            && (forall k | i <= k < r.calls - 1 :: p.answer(k).Some? && !p.gone(k))
            && r.err == p.answer(r.calls - 1)
            && (r.err.Some? ==> r.calls == budget || p.gone(r.calls - 1))
    decreases budget - i
  {
    if p.answer(i).Some? && i < budget - 1 && !p.gone(i) {
      AtMostOneStored(p, budget, i + 1);
    }
  }

  /** The whole loop: three calls on a final delivery and one otherwise, fewer only when one stored the
      record or the context ended; it succeeds if and only if one of the calls it gets to succeeds. */
  lemma PublishesExactly(p: Publisher, final: bool)
    ensures var r := Loop(p, final);
            var most := if final then 3 else 1;
            && 1 <= r.calls <= most
            && (r.calls < most ==> r.err.None? || p.gone(r.calls - 1))
            && (r.err.None? <==>
                  exists i: nat :: i < most && p.answer(i).None?
                                   && forall k: nat | k < i :: p.answer(k).Some? && !p.gone(k))
            && (r.err.Some? ==> r.err == p.answer(r.calls - 1))
  {
    AtMostOneStored(p, Budget(final), 0);
    var r := Loop(p, final);
    if r.err.None? {
      var i: nat := r.calls - 1;
      assert p.answer(i).None?;
    }
  }
}
