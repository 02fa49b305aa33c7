/** Log deduplication (slog_observer.go): the first record of a key and window is logged at once,
    repeats are counted, and one summary carries the count, raced by window timers and flushes.

    An entry is a cell in the list of all entries ever made; the table and the timers refer to it
    by its index, as the source does by reference. */
module Dedup {
  import opened Base

  type Key = string

  datatype Cell = Cell(key: Key, first: int, suppressed: nat, level: int)

  /** What mu guards. */
  datatype Store = Store(table: map<Key, nat>, cells: seq<Cell>)

  const EMPTY := Store(map[], [])
  const MAX_KEYS := 1024

  /** A record is logged at once, or only counted; counting the first repeat starts a timer. */
  datatype Reaction = LogNow | CountOnly(timer: Option<nat>)

  ghost predicate Wellformed(s: Store) {
    forall k | k in s.table :: s.table[k] < |s.cells| && s.cells[s.table[k]].key == k
  }

  predicate Elapsed(s: Store, id: nat, now: int, every: int)
    requires id < |s.cells|
  {
    s.cells[id].suppressed == 0 && now - s.cells[id].first >= every
  }

  /** Drop every entry whose window elapsed with nothing suppressed. */
  function Swept(s: Store, now: int, every: int): map<Key, nat>
    requires Wellformed(s)
  {
    map k | k in s.table && !Elapsed(s, s.table[k], now, every) :: s.table[k]
  }

  function RecordStep(s: Store, k: Key, level: int, now: int, every: int): (Store, Reaction)
    requires Wellformed(s)
  {
    if every <= 0 then (s, LogNow)
    else if k in s.table then
      var id := s.table[k];
      var e := s.cells[id];
      if Elapsed(s, id, now, every) then
        (s.(cells := s.cells[id := e.(first := now, level := level)]), LogNow)
      else
        (s.(cells := s.cells[id := e.(suppressed := e.suppressed + 1)]),
         CountOnly(if e.suppressed == 0 then Some(id) else None))
    else
      var t := if |s.table| >= MAX_KEYS then Swept(s, now, every) else s.table;
      if |t| >= MAX_KEYS then (s.(table := t), LogNow)
      else (Store(t[k := |s.cells|], s.cells + [Cell(k, now, 0, level)]), LogNow)
  }

  /** The window timer of entry id under key k. True when a summary is due. */
  function FlushKeyStep(s: Store, k: Key, id: nat): (Store, bool) {
    if k in s.table && s.table[k] == id then (s.(table := s.table - {k}), true) else (s, false)
  }

  /** The entries Flush takes out with a count to report. */
  function Due(s: Store): set<Key>
    requires Wellformed(s)
  {
    set k | k in s.table && s.cells[s.table[k]].suppressed > 0
  }

  class SlogObserver {
    const every: int
    var table: map<Key, nat>
    var cells: seq<Cell>

    function Value(): Store
      reads this
    {
      Store(table, cells)
    }

    constructor (every: int)
      ensures Value() == EMPTY && this.every == every
    {
      this.every := every;
      table, cells := map[], [];
    }

    method Record(k: Key, level: int, now: int) returns (r: Reaction)
      requires Wellformed(Value())
      modifies this
      ensures (Value(), r) == RecordStep(old(Value()), k, level, now, every)
    {
      if every <= 0 {
        return LogNow;
      }
      if k in table {
        var id := table[k];
        if cells[id].suppressed == 0 && now - cells[id].first >= every {
          cells := cells[id := cells[id].(first := now, level := level)];
          return LogNow;
        }
        cells := cells[id := cells[id].(suppressed := cells[id].suppressed + 1)];
        return CountOnly(if cells[id].suppressed == 1 then Some(id) else None);
      }
      if |table| >= MAX_KEYS {
        Sweep(now);
      }
      if |table| >= MAX_KEYS {
        return LogNow;
      }
      table := table[k := |cells|];
      cells := cells + [Cell(k, now, 0, level)];
      return LogNow;
    }

    method Sweep(now: int)
      requires Wellformed(Value())
      modifies this`table
      ensures table == Swept(old(Value()), now, every)
    {
      var s := Value();
      var left := table.Keys;
      while left != {}
        invariant left <= s.table.Keys
        invariant table == map k | k in s.table && (k in left || !Elapsed(s, s.table[k], now, every)) :: s.table[k]
        decreases |left|
      {
        var k :| k in left;
        left := left - {k};
        if cells[table[k]].suppressed == 0 && now - cells[table[k]].first >= every {
          table := table - {k};
        }
      }
    }

    method FlushKey(k: Key, id: nat) returns (due: bool)
      modifies this
      ensures (Value(), due) == FlushKeyStep(old(Value()), k, id)
    {
      if k !in table || table[k] != id {
        return false;
      }
      table := table - {k};
      due := true;
    }

    /** Empty the table; every entry with a count is handed over once, in some order. */
    method Flush() returns (out: seq<(Key, nat)>)
      requires Wellformed(Value())
      modifies this`table
      ensures table == map[]
      ensures |out| == |Due(old(Value()))|
      ensures forall k :: k in Due(old(Value())) <==> (k in old(table) && (k, old(table)[k]) in out)
      ensures forall p | p in out :: p.0 in Due(old(Value())) && p.1 == old(table)[p.0]
    {
      out := [];
      var left := Due(Value());
      while left != {}
        invariant left <= Due(Value())
        invariant |out| + |left| == |Due(Value())|
        invariant forall k | k in Due(Value()) :: k in left || (k, table[k]) in out
        invariant forall p | p in out :: p.0 in Due(Value()) && p.1 == table[p.0]
        decreases |left|
      {
        var k :| k in left;
        left := left - {k};
        out := out + [(k, table[k])];
      }
      table := map[];
    }
  }

  // ---------- every interleaving of records, timers and flushes ----------

  /** Everything observable: every record call, every line logged at once, timers pending, entries
      taken out whose summary is not written yet, and the summaries written. */
  datatype World = World(
    store: Store, every: int, calls: seq<Key>, lines: seq<Key>, timers: set<nat>,
    owed: seq<nat>, written: seq<nat>, summaries: seq<(Key, nat)>)

  function Start(every: int): World {
    World(EMPTY, every, [], [], {}, [], [], [])
  }

  datatype Action =
    | Record(k: Key, level: int, now: int)
    | Fire(id: nat)
    | Flush(order: seq<nat>)     // the entries handed over, in the order of the map iteration
    | Summarise(i: nat)          // the i-th owed summary is written

  ghost predicate FlushOrder(s: Store, order: seq<nat>)
    requires Wellformed(s)
  {
    && (forall i | 0 <= i < |order| ::
          order[i] < |s.cells| && s.cells[order[i]].key in Due(s) && s.table[s.cells[order[i]].key] == order[i])
    && (forall k | k in Due(s) :: s.table[k] in order)
    && (forall i, j | 0 <= i < j < |order| :: order[i] != order[j])
  }

  ghost predicate Enabled(w: World, a: Action)
    requires Wellformed(w.store)
  {
    match a
    case Record(_, _, _) => true
    case Fire(id) => id in w.timers && id < |w.store.cells|
    case Flush(order) => FlushOrder(w.store, order)
    case Summarise(i) => i < |w.owed| && w.owed[i] < |w.store.cells|
  }

  function Step(w: World, a: Action): World
    requires Wellformed(w.store) && Enabled(w, a)
  {
    match a
    case Record(k, level, now) =>
      var (s, r) := RecordStep(w.store, k, level, now, w.every);
      w.(store := s, calls := w.calls + [k],
         lines := if r.LogNow? then w.lines + [k] else w.lines,
         timers := if r.CountOnly? && r.timer.Some? then w.timers + {r.timer.value} else w.timers)
    case Fire(id) =>
      var (s, due) := FlushKeyStep(w.store, w.store.cells[id].key, id);
      w.(store := s, timers := w.timers - {id}, owed := if due then w.owed + [id] else w.owed)
    case Flush(order) =>
      // A stopped timer may have fired already: it stays and finds its entry gone.
      w.(store := w.store.(table := map[]), owed := w.owed + order)
    case Summarise(i) =>
      var id := w.owed[i];
      var e := w.store.cells[id];
      w.(owed := w.owed[..i] + w.owed[i + 1..], written := w.written + [id],
         summaries := w.summaries + [(e.key, e.suppressed)])
  }

  // ---------- the invariant ----------

  function IsKey(k: Key): Key -> nat {
    (x: Key) => if x == k then 1 else 0
  }

  function CountFor(k: Key): ((Key, nat)) -> nat {
    (p: (Key, nat)) => if p.0 == k then p.1 else 0
  }

  function OwedFor(cells: seq<Cell>, k: Key): nat -> nat {
    (id: nat) => if id < |cells| && cells[id].key == k then cells[id].suppressed else 0
  }

  function Held(s: Store, k: Key): nat {
    if k in s.table && s.table[k] < |s.cells| then s.cells[s.table[k]].suppressed else 0
  }

  ghost predicate Conserved(w: World, k: Key) {
    Sum(IsKey(k), w.calls)
    == Sum(IsKey(k), w.lines) + Sum(CountFor(k), w.summaries) + Sum(OwedFor(w.store.cells, k), w.owed)
       + Held(w.store, k)
  }

  /** The entry left the table for good. */
  predicate Gone(s: Store, id: nat) {
    id < |s.cells| && !(s.cells[id].key in s.table && s.table[s.cells[id].key] == id)
  }

  /** Everything but the books. */
  ghost predicate Tidy(w: World) {
    && Wellformed(w.store)
    && |w.store.table| <= MAX_KEYS
    && (forall k | k in w.store.table && Held(w.store, k) > 0 :: w.store.table[k] in w.timers)
    && (forall i | 0 <= i < |w.owed| :: Gone(w.store, w.owed[i]))
    && (forall i | 0 <= i < |w.written| :: Gone(w.store, w.written[i]))
    && (forall i, j | 0 <= i < j < |w.owed| :: w.owed[i] != w.owed[j])
    && (forall i, j | 0 <= i < j < |w.written| :: w.written[i] != w.written[j])
    && (forall i, j | 0 <= i < |w.owed| && 0 <= j < |w.written| :: w.owed[i] != w.written[j])
  }

  lemma SweptIsSmaller(s: Store, now: int, every: int)
    requires Wellformed(s)
    ensures Swept(s, now, every).Keys <= s.table.Keys && |Swept(s, now, every)| <= |s.table|
  {
    SubsetSize(Swept(s, now, every).Keys, s.table.Keys);
  }

  lemma {:induction false} SubsetSize<T>(a: set<T>, b: set<T>)
    requires a <= b
    ensures |a| <= |b|
  {
    if a != {} {
      var x :| x in a;
      SubsetSize(a - {x}, b - {x});
    }
  }

  /** What one record call does to the store. */
  lemma RecordStore(s: Store, k: Key, level: int, now: int, every: int)
    requires Wellformed(s) && |s.table| <= MAX_KEYS
    ensures var t := RecordStep(s, k, level, now, every).0;
            && Wellformed(t) && |t.table| <= MAX_KEYS
            && forall id | Gone(s, id) :: Gone(t, id)
  {
    SweptIsSmaller(s, now, every);
  }

  lemma RecordTimers(w: World, a: Action)
    requires Tidy(w) && a.Record?
    ensures var v := Step(w, a);
            forall k | k in v.store.table && Held(v.store, k) > 0 :: v.store.table[k] in v.timers
  {
    RecordStore(w.store, a.k, a.level, a.now, w.every);
    var v := Step(w, a);
    forall k | k in v.store.table && Held(v.store, k) > 0 ensures v.store.table[k] in v.timers {
      if k != a.k {
        assert k in w.store.table && v.store.table[k] == w.store.table[k] && Held(w.store, k) > 0;
      }
    }
  }

  lemma RecordTidy(w: World, a: Action)
    requires Tidy(w) && a.Record?
    ensures Tidy(Step(w, a))
  {
    RecordStore(w.store, a.k, a.level, a.now, w.every);
    RecordTimers(w, a);
  }

  /** What a timer does to the store: its entry leaves the table, if it was still there. */
  lemma FireStore(s: Store, id: nat)
    requires Wellformed(s) && id < |s.cells|
    ensures var (t, due) := FlushKeyStep(s, s.cells[id].key, id);
            && Wellformed(t) && t.cells == s.cells && |t.table| <= |s.table|
            && (due <==> !Gone(s, id))
            && Gone(t, id)
            && (forall x | Gone(s, x) :: Gone(t, x))
            && (forall k | k in t.table :: k in s.table && t.table[k] == s.table[k] && t.table[k] != id)
  {
    var k := s.cells[id].key;
    SubsetSize((s.table - {k}).Keys, s.table.Keys);
  }

  lemma FireTidy(w: World, a: Action)
    requires Tidy(w) && a.Fire? && Enabled(w, a)
    ensures Tidy(Step(w, a))
  {
    hide FlushKeyStep, Wellformed;
    var v := Step(w, a);
    FireStore(w.store, a.id);
    assert v.store == FlushKeyStep(w.store, w.store.cells[a.id].key, a.id).0;
    forall k | k in v.store.table && Held(v.store, k) > 0 ensures v.store.table[k] in v.timers {
      assert Held(w.store, k) > 0;
    }
    if v.owed != w.owed {
      forall i | 0 <= i < |w.owed| ensures w.owed[i] != a.id {
      }
      forall i | 0 <= i < |w.written| ensures w.written[i] != a.id {
      }
    }
  }

  lemma FlushTidy(w: World, a: Action)
    requires Tidy(w) && a.Flush? && Enabled(w, a)
    ensures Tidy(Step(w, a))
  {
  }

  lemma SummariseTidy(w: World, a: Action)
    requires Tidy(w) && a.Summarise? && Enabled(w, a)
    ensures Tidy(Step(w, a))
  {
    var v := Step(w, a);
    forall i | 0 <= i < |v.owed| ensures v.owed[i] == w.owed[if i < a.i then i else i + 1] {
    }
  }

  // ---------- conservation ----------

  lemma OwedUnchanged(w: World, a: Action, k: Key)
    requires Tidy(w) && a.Record?
    ensures Sum(OwedFor(Step(w, a).store.cells, k), w.owed) == Sum(OwedFor(w.store.cells, k), w.owed)
  {
    SumSame(OwedFor(Step(w, a).store.cells, k), OwedFor(w.store.cells, k), w.owed);
  }

  lemma RecordConserves(w: World, a: Action, k: Key)
    requires Tidy(w) && a.Record? && Conserved(w, k)
    ensures Conserved(Step(w, a), k)
  {
    var v := Step(w, a);
    var (t, r) := RecordStep(w.store, a.k, a.level, a.now, w.every);
    assert v.store == t && v.calls == w.calls + [a.k];
    assert v.lines == if r.LogNow? then w.lines + [a.k] else w.lines;
    SumAppend(IsKey(k), w.calls, a.k);
    SumAppend(IsKey(k), w.lines, a.k);
    OwedUnchanged(w, a, k);
    HeldAfterRecord(w.store, a.k, a.level, a.now, w.every, k);
  }

  /** A record is a line, or one more suppressed repeat of its own key. */
  lemma HeldAfterRecord(s: Store, k: Key, level: int, now: int, every: int, other: Key)
    requires Wellformed(s)
    ensures var (t, r) := RecordStep(s, k, level, now, every);
            Held(t, other) == Held(s, other) + (if r.CountOnly? && other == k then 1 else 0)
  {
  }

  lemma FireConserves(w: World, a: Action, k: Key)
    requires Tidy(w) && a.Fire? && Enabled(w, a) && Conserved(w, k)
    ensures Conserved(Step(w, a), k)
  {
    SumAppend(OwedFor(w.store.cells, k), w.owed, a.id);
  }

  /** What Flush hands over for a key is exactly the count held for it. */
  lemma FlushTakesHeld(s: Store, order: seq<nat>, k: Key)
    requires Wellformed(s) && FlushOrder(s, order)
    ensures Sum(OwedFor(s.cells, k), order) == Held(s, k)
  {
    var weight := OwedFor(s.cells, k);
    var x: nat := if k in s.table then s.table[k] else |s.cells|;
    forall i | 0 <= i < |order| && order[i] != x ensures weight(order[i]) == 0 {
    }
    SumOfOne(weight, order, x);
    if k in s.table && x !in order {
      assert k !in Due(s);
    }
  }

  lemma FlushConserves(w: World, a: Action, k: Key)
    requires Tidy(w) && a.Flush? && Enabled(w, a) && Conserved(w, k)
    ensures Conserved(Step(w, a), k)
  {
    SumConcat(OwedFor(w.store.cells, k), w.owed, a.order);
    FlushTakesHeld(w.store, a.order, k);
  }

  lemma SummariseConserves(w: World, a: Action, k: Key)
    requires Tidy(w) && a.Summarise? && Enabled(w, a) && Conserved(w, k)
    ensures Conserved(Step(w, a), k)
  {
    var e := w.store.cells[w.owed[a.i]];
    SumRemove(OwedFor(w.store.cells, k), w.owed, a.i);
    SumAppend(CountFor(k), w.summaries, (e.key, e.suppressed));
  }

  ghost predicate Inv(w: World) {
    Tidy(w) && forall k :: Conserved(w, k)
  }

  lemma InvStep(w: World, a: Action)
    requires Inv(w) && Enabled(w, a)
    ensures Inv(Step(w, a))
  {
    match a {
      case Record(_, _, _) => RecordTidy(w, a);
      case Fire(_) => FireTidy(w, a);
      case Flush(_) => FlushTidy(w, a);
      case Summarise(_) => SummariseTidy(w, a);
    }
    forall k ensures Conserved(Step(w, a), k) {
      match a {
        case Record(_, _, _) => RecordConserves(w, a, k);
        case Fire(_) => FireConserves(w, a, k);
        case Flush(_) => FlushConserves(w, a, k);
        case Summarise(_) => SummariseConserves(w, a, k);
      }
    }
  }

  ghost predicate Runs(w: World, actions: seq<Action>)
    requires Inv(w)
    decreases |actions|
  {
    actions == [] || (Enabled(w, actions[0]) && (InvStep(w, actions[0]); Runs(Step(w, actions[0]), actions[1..])))
  }

  ghost function After(w: World, actions: seq<Action>): (v: World)
    requires Inv(w) && Runs(w, actions)
    ensures Inv(v)
    decreases |actions|
  {
    if actions == [] then w else InvStep(w, actions[0]); After(Step(w, actions[0]), actions[1..])
  }

  lemma StartInv(every: int)
    ensures Inv(Start(every))
  {
  }

  ghost predicate RunsFrom(every: int, actions: seq<Action>) {
    StartInv(every);
    Runs(Start(every), actions)
  }

  /** The world after a run from the start. */
  ghost function Reached(every: int, actions: seq<Action>): (w: World)
    requires RunsFrom(every, actions)
    ensures Inv(w)
  {
    StartInv(every);
    After(Start(every), actions)
  }

  /** Over any interleaving of records, timers and flushes, per key: the records are the lines
      logged at once, plus the counts in the summaries written, plus the counts taken out but not
      yet written, plus the count still held. */
  lemma NoRecordIsLost(every: int, actions: seq<Action>, k: Key)
    requires RunsFrom(every, actions)
    ensures var w := Reached(every, actions);
            Sum(IsKey(k), w.calls)
            == Sum(IsKey(k), w.lines) + Sum(CountFor(k), w.summaries)
               + Sum(OwedFor(w.store.cells, k), w.owed) + Held(w.store, k)
  {
    assert Conserved(Reached(every, actions), k);
  }

  /** Every held count has its window timer pending, no entry is summarised twice, an entry taken
      out is never counted on again, and at most 1024 keys are tracked. */
  lemma TimersAndBounds(every: int, actions: seq<Action>)
    requires RunsFrom(every, actions)
    ensures var w := Reached(every, actions);
            && |w.store.table| <= 1024
            && (forall k | k in w.store.table && Held(w.store, k) > 0 :: w.store.table[k] in w.timers)
            && (forall i, j | 0 <= i < j < |w.written| :: w.written[i] != w.written[j])
            && (forall i, j | 0 <= i < |w.owed| && 0 <= j < |w.written| :: w.owed[i] != w.written[j])
  {
  }

  /** The summary is written outside the lock: whatever records, timers and flushes happen in
      between, the entry it reads does not change after it left the table. */
  lemma GoneIsFrozen(w: World, a: Action, id: nat)
    requires Inv(w) && Enabled(w, a) && Gone(w.store, id)
    ensures var v := Step(w, a); Gone(v.store, id) && v.store.cells[id] == w.store.cells[id]
  {
    if a.Record? {
      RecordStore(w.store, a.k, a.level, a.now, w.every);
    }
  }

  /** After a Flush nothing is held, so once the owed summaries are written every record is on a
      line or in a summary. */
  lemma FlushLeavesNothingHeld(w: World, order: seq<nat>, k: Key)
    requires Inv(w) && Enabled(w, Flush(order))
    ensures var v := Step(w, Flush(order));
            Sum(IsKey(k), v.calls)
            == Sum(IsKey(k), v.lines) + Sum(CountFor(k), v.summaries) + Sum(OwedFor(v.store.cells, k), v.owed)
  {
    FlushConserves(w, Flush(order), k);
  }

  // ---------- no summary is empty ----------

  predicate Counted(s: Store, id: nat) {
    id < |s.cells| && s.cells[id].suppressed > 0
  }

  /** Timers and owed summaries belong to entries that hold a count, and the summaries written carry one. */
  ghost predicate NothingEmpty(w: World) {
    && (forall id | id in w.timers :: Counted(w.store, id))
    && (forall i | 0 <= i < |w.owed| :: Counted(w.store, w.owed[i]))
    && (forall i | 0 <= i < |w.summaries| :: w.summaries[i].1 > 0)
  }

  lemma StaysCounted(s: Store, k: Key, level: int, now: int, every: int)
    requires Wellformed(s)
    ensures var (t, r) := RecordStep(s, k, level, now, every);
            && (forall id | Counted(s, id) :: Counted(t, id))
            && (r.CountOnly? && r.timer.Some? ==> Counted(t, r.timer.value))
  {
  }

  lemma NothingEmptyStep(w: World, a: Action)
    requires Tidy(w) && Enabled(w, a) && NothingEmpty(w)
    ensures NothingEmpty(Step(w, a))
  {
    match a
    case Record(k, level, now) =>
      hide RecordStep;
      StaysCounted(w.store, k, level, now, w.every);
    case Fire(id) =>
    case Flush(order) =>
    case Summarise(i) =>
  }

  lemma {:induction false} NothingEmptyRun(w: World, actions: seq<Action>)
    requires Inv(w) && Runs(w, actions) && NothingEmpty(w)
    ensures NothingEmpty(After(w, actions))
    decreases |actions|
  {
    hide NothingEmpty, Conserved;
    if actions != [] {
      InvStep(w, actions[0]);
      NothingEmptyStep(w, actions[0]);
      NothingEmptyRun(Step(w, actions[0]), actions[1..]);
    }
  }

  /** In every interleaving a summary is written only for an entry that held something back: no summary
      says zero, and a timer runs only for an entry with a count. */
  lemma NoEmptySummary(every: int, actions: seq<Action>)
    requires RunsFrom(every, actions)
    ensures var w := Reached(every, actions);
            && (forall i | 0 <= i < |w.summaries| :: w.summaries[i].1 > 0)
            && (forall i | 0 <= i < |w.owed| :: Counted(w.store, w.owed[i]))
            && (forall id | id in w.timers :: Counted(w.store, id))
  {
    StartInv(every);
    NothingEmptyRun(Start(every), actions);
  }

  // ---------- exactly which records are logged ----------

  datatype Line = Line(at: int, level: int)

  /** The last line logged at once of every key, after the step. */
  function Logged(w: World, a: Action, last: map<Key, Line>): map<Key, Line>
    requires Wellformed(w.store)
  {
    if a.Record? && RecordStep(w.store, a.k, a.level, a.now, w.every).1.LogNow? then last[a.k := Line(a.now, a.level)]
    else last
  }

  /** Every open window began with the last line of its key; without deduplication there is none. */
  ghost predicate Windows(s: Store, every: int, last: map<Key, Line>) {
    && (every <= 0 ==> s.table == map[])
    && forall k | k in s.table ::
         && k in last && s.table[k] < |s.cells|
         && s.cells[s.table[k]].first == last[k].at && s.cells[s.table[k]].level == last[k].level
  }

  lemma WindowsStep(w: World, a: Action, last: map<Key, Line>)
    requires Tidy(w) && Enabled(w, a) && Windows(w.store, w.every, last)
    ensures Windows(Step(w, a).store, w.every, Logged(w, a, last))
  {
    if a.Record? {
      WindowsRecord(w.store, a.k, a.level, a.now, w.every, last);
    }
  }

  lemma WindowsRecord(s: Store, k: Key, level: int, now: int, every: int, last: map<Key, Line>)
    requires Wellformed(s) && Windows(s, every, last)
    ensures var (t, r) := RecordStep(s, k, level, now, every);
            Windows(t, every, if r.LogNow? then last[k := Line(now, level)] else last)
  {
    var (t, r) := RecordStep(s, k, level, now, every);
    var lines := if r.LogNow? then last[k := Line(now, level)] else last;
    forall x | x in t.table
      ensures x in lines && t.table[x] < |t.cells|
              && t.cells[t.table[x]].first == lines[x].at && t.cells[t.table[x]].level == lines[x].level
    {
      if x != k {
        assert x in s.table && s.cells[s.table[x]].key == x;
        if k in s.table {
          assert s.cells[s.table[k]].key == k;
        }
      }
    }
  }

  /** The lines of a run. */
  ghost function LastLines(w: World, actions: seq<Action>, last: map<Key, Line>): map<Key, Line>
    requires Inv(w) && Runs(w, actions)
    decreases |actions|
  {
    if actions == [] then last
    else InvStep(w, actions[0]); LastLines(Step(w, actions[0]), actions[1..], Logged(w, actions[0], last))
  }

  lemma {:induction false} WindowsRun(w: World, actions: seq<Action>, last: map<Key, Line>)
    requires Inv(w) && Runs(w, actions) && Windows(w.store, w.every, last)
    ensures Windows(After(w, actions).store, w.every, LastLines(w, actions, last))
    decreases |actions|
  {
    hide Windows, Conserved;
    if actions != [] {
      InvStep(w, actions[0]);
      WindowsStep(w, actions[0], last);
      WindowsRun(Step(w, actions[0]), actions[1..], Logged(w, actions[0], last));
    }
  }

  /** What a run of records, timers and flushes logged at once, last of each key. */
  ghost function LinesOf(every: int, actions: seq<Action>): map<Key, Line>
    requires RunsFrom(every, actions)
  {
    StartInv(every);
    LastLines(Start(every), actions, map[])
  }

  /** Some window is over with nothing held back in it. */
  ghost predicate SomeOver(s: Store, now: int, every: int)
    requires Wellformed(s)
  {
    exists k :: k in s.table && Elapsed(s, s.table[k], now, every)
  }

  lemma SweepFrees(s: Store, now: int, every: int)
    requires Wellformed(s)
    ensures |Swept(s, now, every)| < |s.table| <==> SomeOver(s, now, every)
  {
    var t := Swept(s, now, every);
    if SomeOver(s, now, every) {
      var k :| k in s.table && Elapsed(s, s.table[k], now, every);
      SubsetSize(t.Keys, s.table.Keys - {k});
    } else {
      assert t == s.table;
    }
  }

  /** In every interleaving a record is logged at once if and only if deduplication is off, its key has
      no open window, or the window is over: nothing was held back in it and Every passed since the
      line that began it. Any other record is counted in the window, and changes no line. A window is
      open afterwards unless deduplication is off, or 1024 are open and none of them is over. */
  lemma LoggedExactly(every: int, actions: seq<Action>, k: Key, level: int, now: int)
    requires RunsFrom(every, actions)
    ensures var w := Reached(every, actions);
            var v := Step(w, Record(k, level, now));
            var open := k in w.store.table;
            && (open ==> k in LinesOf(every, actions))
            && (if every <= 0 || !open
                   || (Held(w.store, k) == 0 && now - LinesOf(every, actions)[k].at >= every)
                then v.lines == w.lines + [k]
                else v.lines == w.lines && Held(v.store, k) == Held(w.store, k) + 1)
            && (k in v.store.table <==>
                  open || (every > 0 && (|w.store.table| < MAX_KEYS || SomeOver(w.store, now, every))))
  {
    hide Conserved;
    SweepFrees(Reached(every, actions).store, now, every);
    StartInv(every);
    WindowsRun(Start(every), actions, map[]);
    EveryStays(Start(every), actions);
  }

  lemma {:induction false} EveryStays(w: World, actions: seq<Action>)
    requires Inv(w) && Runs(w, actions)
    ensures After(w, actions).every == w.every
    decreases |actions|
  {
    hide Conserved;
    if actions != [] {
      InvStep(w, actions[0]);
      EveryStays(Step(w, actions[0]), actions[1..]);
    }
  }
}
