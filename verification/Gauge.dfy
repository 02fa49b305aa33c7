/** The breaker-state gauge of the metrics observer (prometheus/observer.go): transitions reach it
    late and out of order, and the newest Seq of a breaker wins. */
module Gauge {
  import Breaker

  /** A reported transition: handler is the gauge label, breaker the process-unique id. */
  datatype Report = Report(handler: string, breaker: nat, to: Breaker.State, seqNo: nat)

  type Key = (string, nat)

  datatype Panel = Panel(lastSeq: map<Key, nat>, shown: map<string, Breaker.State>)

  function Apply(p: Panel, r: Report): Panel {
    var key := (r.handler, r.breaker);
    if key in p.lastSeq && r.seqNo <= p.lastSeq[key] then p
    else Panel(p.lastSeq[key := r.seqNo], p.shown[r.handler := r.to])
  }

  class Observer {
    var lastSeq: map<Key, nat>
    var shown: map<string, Breaker.State>

    function Value(): Panel
      reads this
    {
      Panel(lastSeq, shown)
    }

    constructor ()
      ensures Value() == Panel(map[], map[])
    {
      lastSeq, shown := map[], map[];
    }

    method BreakerTransition(r: Report)
      modifies this
      ensures Value() == Apply(old(Value()), r)
    {
      var key := (r.handler, r.breaker);
      if key in lastSeq && r.seqNo <= lastSeq[key] {
        return;
      }
      lastSeq := lastSeq[key := r.seqNo];
      shown := shown[r.handler := r.to];
    }
  }

  function Deliver(reports: seq<Report>): Panel {
    if reports == [] then Panel(map[], map[])
    else Apply(Deliver(reports[..|reports| - 1]), reports[|reports| - 1])
  }

  /** One breaker: the gauge label and the id. */
  predicate Same(r: Report, q: Report) {
    r.handler == q.handler && r.breaker == q.breaker
  }

  /** The i-th report counts: its breaker was never reported with that Seq or a newer one before. */
  ghost predicate Fresh(reports: seq<Report>, i: nat) {
    i < |reports| && forall j | 0 <= j < i && Same(reports[j], reports[i]) :: reports[j].seqNo < reports[i].seqNo
  }

  /** The i-th report is the last one of handler h that counts. */
  ghost predicate LastFresh(reports: seq<Report>, h: string, i: nat) {
    && Fresh(reports, i) && reports[i].handler == h
    && forall j: nat | i < j && Fresh(reports, j) :: reports[j].handler != h
  }

  /** Of every breaker the newest Seq is kept. */
  ghost predicate Kept(reports: seq<Report>, p: Panel) {
    && (forall j | 0 <= j < |reports| ::
          (reports[j].handler, reports[j].breaker) in p.lastSeq
          && reports[j].seqNo <= p.lastSeq[(reports[j].handler, reports[j].breaker)])
    && (forall k | k in p.lastSeq ::
          exists j :: 0 <= j < |reports| && (reports[j].handler, reports[j].breaker) == k
                      && reports[j].seqNo == p.lastSeq[k])
  }

  lemma {:induction false} SeqsAreKept(reports: seq<Report>)
    ensures Kept(reports, Deliver(reports))
  {
    if reports != [] {
      var n := |reports| - 1;
      var p, q := Deliver(reports[..n]), Deliver(reports);
      SeqsAreKept(reports[..n]);
      forall k | k in q.lastSeq
        ensures exists j :: 0 <= j < |reports| && (reports[j].handler, reports[j].breaker) == k
                            && reports[j].seqNo == q.lastSeq[k]
      {
        if k in p.lastSeq && q.lastSeq[k] == p.lastSeq[k] {
          var j :| 0 <= j < n && (reports[..n][j].handler, reports[..n][j].breaker) == k
                   && reports[..n][j].seqNo == p.lastSeq[k];
          assert reports[j] == reports[..n][j];
        } else {
          assert (reports[n].handler, reports[n].breaker) == k && reports[n].seqNo == q.lastSeq[k];
        }
      }
      forall j | 0 <= j < |reports|
        ensures (reports[j].handler, reports[j].breaker) in q.lastSeq
                && reports[j].seqNo <= q.lastSeq[(reports[j].handler, reports[j].breaker)]
      {
        assert j < n ==> reports[..n][j] == reports[j];
      }
    }
  }

  /** The last report moves the gauge exactly when it counts. */
  lemma CountsExactly(reports: seq<Report>)
    requires reports != []
    ensures var n := |reports| - 1;
            Deliver(reports).shown
            == if Fresh(reports, n) then Deliver(reports[..n]).shown[reports[n].handler := reports[n].to]
               else Deliver(reports[..n]).shown
  {
    var n := |reports| - 1;
    var r, p := reports[n], Deliver(reports[..n]);
    var k := (r.handler, r.breaker);
    SeqsAreKept(reports[..n]);
    if k in p.lastSeq && r.seqNo <= p.lastSeq[k] {
      var j :| 0 <= j < n && (reports[..n][j].handler, reports[..n][j].breaker) == k
               && reports[..n][j].seqNo == p.lastSeq[k];
      assert Same(reports[j], r) && reports[j].seqNo >= r.seqNo;
    } else {
      forall j | 0 <= j < n && Same(reports[j], r) ensures reports[j].seqNo < r.seqNo {
        assert reports[..n][j] == reports[j];
      }
    }
  }

  lemma FreshPrefix(reports: seq<Report>, n: nat, i: nat)
    requires n <= |reports| && i < n
    ensures Fresh(reports[..n], i) <==> Fresh(reports, i)
  {
    assert forall j | 0 <= j <= i :: reports[..n][j] == reports[j];
  }

  /** An older last report stays the last one that counts when a new one does not. */
  lemma LastFreshStays(reports: seq<Report>, h: string, i: nat)
    requires reports != []
    requires var n := |reports| - 1;
             LastFresh(reports[..n], h, i) && !(Fresh(reports, n) && reports[n].handler == h)
    ensures LastFresh(reports, h, i)
  {
    var n := |reports| - 1;
    FreshPrefix(reports, n, i);
    forall j: nat | i < j && Fresh(reports, j) ensures reports[j].handler != h {
      if j < n {
        FreshPrefix(reports, n, j);
        assert reports[..n][j] == reports[j];
      }
    }
  }

  predicate Reported(reports: seq<Report>, h: string) {
    exists j :: 0 <= j < |reports| && reports[j].handler == h
  }

  lemma ReportedNext(reports: seq<Report>, h: string)
    requires reports != []
    ensures var n := |reports| - 1; Reported(reports, h) <==> Reported(reports[..n], h) || reports[n].handler == h
  {
    var n := |reports| - 1;
    if Reported(reports[..n], h) {
      var j :| 0 <= j < n && reports[..n][j].handler == h;
      assert reports[j].handler == h;
    }
    if j :| 0 <= j < n && reports[j].handler == h {
      assert reports[..n][j].handler == h;
    }
  }

  /** The first report of a handler counts. */
  lemma FirstCounts(reports: seq<Report>, h: string)
    requires reports != []
    requires var n := |reports| - 1; !Reported(reports[..n], h) && reports[n].handler == h
    ensures Fresh(reports, |reports| - 1)
  {
    var n := |reports| - 1;
    forall j | 0 <= j < n ensures reports[j].handler != h {
      assert reports[..n][j] == reports[j];
    }
  }

  ghost predicate Shows(reports: seq<Report>, h: string, i: nat) {
    LastFresh(reports, h, i) && h in Deliver(reports).shown && Deliver(reports).shown[h] == reports[i].to
  }

  /** Whatever the order and the repetitions, and however many breakers report under one handler name:
      the gauge shows the last report of the handler that counts, and nothing when none was made. */
  lemma {:induction false} LastFreshShows(reports: seq<Report>, h: string)
    ensures h in Deliver(reports).shown <==> Reported(reports, h)
    ensures Reported(reports, h) ==> exists i: nat :: Shows(reports, h, i)
  {
    if reports != [] {
      var n := |reports| - 1;
      LastFreshShows(reports[..n], h);
      CountsExactly(reports);
      ReportedNext(reports, h);
      if Fresh(reports, n) && reports[n].handler == h {
        assert Shows(reports, h, n);
      } else if Reported(reports[..n], h) {
        var i: nat :| Shows(reports[..n], h, i);
        LastFreshStays(reports, h, i);
        assert Shows(reports, h, i);
      } else if reports[n].handler == h {
        FirstCounts(reports, h);
      }
    }
  }

  /** A report that counts last is the newest of its own breaker: nothing older of that breaker ever
      overwrites it. */
  lemma LastFreshIsNewest(reports: seq<Report>, h: string, i: nat, j: nat)
    requires LastFresh(reports, h, i) && j < |reports| && Same(reports[j], reports[i])
    ensures reports[j].seqNo <= reports[i].seqNo
  {
    if reports[j].seqNo > reports[i].seqNo {
      var k := FirstAbove(reports, i, j);
    }
  }

  /** The first report of the breaker with a Seq above that of i counts. */
  lemma {:induction false} FirstAbove(reports: seq<Report>, i: nat, j: nat) returns (k: nat)
    requires Fresh(reports, i) && j < |reports| && Same(reports[j], reports[i]) && reports[j].seqNo > reports[i].seqNo
    ensures i < k && Fresh(reports, k) && reports[k].handler == reports[i].handler
    decreases j
  {
    if m: nat :| m < j && Same(reports[m], reports[i]) && reports[m].seqNo > reports[i].seqNo {
      k := FirstAbove(reports, i, m);
    } else {
      k := j;
    }
  }

  /** One breaker under a name: the gauge shows its newest report, late and repeated ones aside. */
  lemma NewestWins(reports: seq<Report>, h: string, i: nat)
    requires i < |reports| && reports[i].handler == h
    requires forall j | 0 <= j < |reports| && reports[j].handler == h ::
               Same(reports[j], reports[i]) && (reports[j].seqNo < reports[i].seqNo || reports[j] == reports[i])
    ensures h in Deliver(reports).shown && Deliver(reports).shown[h] == reports[i].to
  {
    LastFreshShows(reports, h);
    var k: nat :| Shows(reports, h, k);
    LastFreshIsNewest(reports, h, k, i);
  }

  /** The next report moves the gauge exactly when it is newer than all that was delivered of its own
      breaker, whatever other breakers of that name reported: so a rebuilt breaker is followed from its
      first report on, and a late report of the old one, if newer than the rest of the old one, takes
      the gauge back. */
  lemma NextReport(reports: seq<Report>, r: Report)
    ensures Deliver(reports + [r]).shown
            == if forall j | 0 <= j < |reports| && Same(reports[j], r) :: reports[j].seqNo < r.seqNo
               then Deliver(reports).shown[r.handler := r.to]
               else Deliver(reports).shown
  {
    var all := reports + [r];
    assert all[..|reports|] == reports;
    CountsExactly(all);
    assert forall j | 0 <= j < |reports| :: all[j] == reports[j];
  }

  /** The report of the n-th transition of the breaker of handler h. */
  predicate Reports(w: Breaker.World, h: string, b: nat, r: Report) {
    && r.handler == h && r.breaker == b
    && exists i :: 0 <= i < |w.changes| && w.changes[i].seqNo == r.seqNo && w.changes[i].to == r.to
  }

  /** A report not older than the breaker's last change shows its state. */
  lemma LastReported(w: Breaker.World, h: string, b: nat, r: Report)
    requires Breaker.Numbered(w) && Reports(w, h, b, r) && r.seqNo >= w.cell.seqNo
    ensures r.to == w.cell.state
  {
    hide Breaker.Numbered;
    var i :| 0 <= i < |w.changes| && w.changes[i].seqNo == r.seqNo && w.changes[i].to == r.to;
    Breaker.LastChange(w, i);
  }

  /** Once the last transition of a breaker was delivered, in any order among the others and among
      those of any other breaker of that name, the gauge shows the state the breaker is in, as long as
      no report of another breaker counted after it. */
  lemma GaugeCatchesUp(c: Breaker.Config, actions: seq<Breaker.Action>, h: string, b: nat, reports: seq<Report>, i: nat)
    requires Breaker.Runs(c, Breaker.START, actions)
    requires var w := Breaker.After(c, Breaker.START, actions);
             && (forall r | r in reports && r.handler == h && r.breaker == b :: Reports(w, h, b, r))
             && (exists r :: r in reports && r.handler == h && r.breaker == b && r.seqNo == w.cell.seqNo)
    requires LastFresh(reports, h, i) && reports[i].breaker == b
    ensures var p := Deliver(reports);
            h in p.shown && p.shown[h] == Breaker.After(c, Breaker.START, actions).cell.state
  {
    Breaker.InvReached(c, actions);
    CatchesUp(Breaker.After(c, Breaker.START, actions), h, b, reports, i);
  }

  lemma CatchesUp(w: Breaker.World, h: string, b: nat, reports: seq<Report>, i: nat)
    requires Breaker.Numbered(w)
    requires forall r | r in reports && r.handler == h && r.breaker == b :: Reports(w, h, b, r)
    requires exists r :: r in reports && r.handler == h && r.breaker == b && r.seqNo == w.cell.seqNo
    requires LastFresh(reports, h, i) && reports[i].breaker == b
    ensures h in Deliver(reports).shown && Deliver(reports).shown[h] == w.cell.state
  {
    var r :| r in reports && r.handler == h && r.breaker == b && r.seqNo == w.cell.seqNo;
    var j: nat :| j < |reports| && reports[j] == r;
    LastFreshIsNewest(reports, h, i, j);
    assert reports[i] in reports;
    LastReported(w, h, b, reports[i]);
    LastFreshShows(reports, h);
    assert Reported(reports, h);
    var k: nat :| Shows(reports, h, k);
    assert k == i;
  }
}
