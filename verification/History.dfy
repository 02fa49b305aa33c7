/** The bounded retry-history header (history.go): the newest attempts that fit, as a JSON array.
    How one entry is marshalled is a parameter: any encoder that gives at least one byte, with
    whatever escaping. */
module History {
  import opened Base
  import opened Truncate

  /** One failed attempt: its error text and everything else of it. */
  datatype Failed = Failed(id: nat, err: Text)

  type Encoder = (Failed, Text) -> Text

  ghost predicate Encodes(enc: Encoder) {
    forall a, t :: |enc(a, t)| > 0
  }

  const COMMA: Byte := 0x2C

  /** bytes.Join(parts, ",") */
  function Join(parts: seq<Text>): Text {
    if parts == [] then []
    else if |parts| == 1 then parts[0]
    else parts[0] + [COMMA] + Join(parts[1..])
  }

  function Array(body: Text): Text {
    [0x5B] + body + [0x5D]
  }

  function Parts(enc: Encoder, history: seq<Failed>): (parts: seq<Text>)
    ensures |parts| == |history|
  {
    seq(|history|, i requires 0 <= i < |history| => enc(history[i], Sanitized(history[i].err)))
  }

  function Cap(capBytes: int): (c: nat)
    ensures c >= 2 && c >= capBytes && (c == 2 || c == capBytes)
  {
    if capBytes < 2 then 2 else capBytes
  }

  // ---------- shrinking one entry ----------

  /** The entry with its error text cut to room bytes. */
  function AtRoom(enc: Encoder, a: Failed): int -> Text {
    (room: int) => enc(a, TruncateHeader(Sanitized(a.err), room))
  }

  /** The retry loop: the room shrinks by the overshoot until the entry fits or nothing is left. */
  function ShrinkFrom(at: int -> Text, empty: Text, budget: int, room: int): Text
    decreases room
  {
    if room <= 0 then empty
    else if |at(room)| <= budget then at(room)
    else ShrinkFrom(at, empty, budget, room - (|at(room)| - budget))
  }

  function StartRoom(enc: Encoder, a: Failed, budget: int): int {
    var room := budget - |enc(a, [])|;
    if room > |Sanitized(a.err)| then |Sanitized(a.err)| else room
  }

  function Shrink(enc: Encoder, a: Failed, budget: int): Option<Text> {
    if |enc(a, [])| > budget then None
    else Some(ShrinkFrom(AtRoom(enc, a), enc(a, []), budget, StartRoom(enc, a, budget)))
  }

  method ShrinkHistoryEntry(enc: Encoder, a: Failed, budget: int) returns (e: Option<Text>)
    ensures e == Shrink(enc, a, budget)
  {
    hide TruncateHeader, Sanitized;
    var empty := enc(a, []);
    if |empty| > budget {
      return None;
    }
    var errText := Sanitized(a.err);
    var room := budget - |empty|;
    if room > |errText| {
      room := |errText|;
    }
    ghost var at := AtRoom(enc, a);
    ghost var goal := ShrinkFrom(at, empty, budget, room);
    while room > 0
      invariant ShrinkFrom(at, empty, budget, room) == goal
      decreases room
    {
      var e1 := enc(a, TruncateHeader(errText, room));
      assert e1 == at(room);
      if |e1| <= budget {
        return Some(e1);
      }
      room := room - (|e1| - budget);
    }
    return Some(empty);
  }

  /** Whatever the escaping expands, the loop ends within the budget, with the error text cut to
      some room, or emptied; it gives up only when even the empty text does not fit. */
  lemma {:induction false} ShrinkFromFits(at: int -> Text, empty: Text, budget: int, room: int)
    requires |empty| <= budget
    ensures var e := ShrinkFrom(at, empty, budget, room);
            |e| <= budget && (e == empty || exists r: nat :: 0 < r <= room && e == at(r))
    decreases room
  {
    if room > 0 && |at(room)| > budget {
      ShrinkFromFits(at, empty, budget, room - (|at(room)| - budget));
    }
  }

  lemma ShrunkFits(enc: Encoder, a: Failed, budget: int)
    ensures Shrink(enc, a, budget).Some? ==> |Shrink(enc, a, budget).value| <= budget
  {
    if |enc(a, [])| <= budget {
      ShrinkFromFits(AtRoom(enc, a), enc(a, []), budget, StartRoom(enc, a, budget));
    }
  }

  lemma PartsNonEmpty(enc: Encoder, history: seq<Failed>)
    requires Encodes(enc)
    ensures forall i | 0 <= i < |history| :: |Parts(enc, history)[i]| > 0
  {
    forall i | 0 <= i < |history| ensures |Parts(enc, history)[i]| > 0 {
      var e := enc(history[i], Sanitized(history[i].err));
    }
  }

  /** Without escaping the first try fits, so the entry keeps as much text as the budget allows. */
  lemma UnescapedKeepsTheMost(enc: Encoder, a: Failed, budget: int)
    requires forall t :: |enc(a, t)| == |enc(a, [])| + |t|
    requires |enc(a, [])| <= budget
    ensures var text := Sanitized(a.err);
            var room := budget - |enc(a, [])|;
            Shrink(enc, a, budget) == Some(enc(a, if room >= |text| then text else TruncateHeader(text, room)))
  {
    var text := Sanitized(a.err);
    SanitizedIsPrintable(a.err);
    var room := StartRoom(enc, a, budget);
    if room > 0 {
      BoundedAndPrintable(text, room);
      if room == |text| {
        UnchangedExactly(text, room);
      }
    } else if |text| == 0 {
      assert text == [];
    }
  }

  // ---------- is it the longest text that fits? ----------

  /** The room at which the loop stops. */
  function Landing(at: int -> Text, budget: int, room: int): (k: nat)
    ensures k <= if room < 0 then 0 else room
    decreases room
  {
    if room <= 0 then 0
    else if |at(room)| <= budget then room
    else Landing(at, budget, room - (|at(room)| - budget))
  }

  lemma {:induction false} EndsAtLanding(at: int -> Text, budget: int, room: int)
    requires |at(0)| <= budget
    ensures ShrinkFrom(at, at(0), budget, room) == at(Landing(at, budget, room))
    ensures |at(Landing(at, budget, room))| <= budget
    decreases room
  {
    if room > 0 && |at(room)| > budget {
      EndsAtLanding(at, budget, room - (|at(room)| - budget));
    }
  }

  /** Every byte of room costs at least one byte of entry. */
  ghost predicate Grows(at: int -> Text, lo: int, hi: int) {
    forall r | lo <= r < hi :: |at(r)| < |at(r + 1)|
  }

  lemma {:induction false} GrowsBy(at: int -> Text, lo: int, hi: int, r: int, q: int)
    requires Grows(at, lo, hi) && lo <= r <= q <= hi
    ensures |at(r)| + (q - r) <= |at(q)|
    decreases q - r
  {
    if r < q {
      GrowsBy(at, lo, hi, r, q - 1);
      assert |at(q - 1)| < |at(q - 1 + 1)|;
    }
  }

  /** Where the first retry tries next. */
  function Retry(at: int -> Text, budget: int, room: int): nat {
    var next := room - (|at(room)| - budget);
    if next < 0 then 0 else next
  }

  /** Where the entry grows with every byte of room, one retry is enough, and the loop stops at the
      largest room that fits if and only if the first try fits or the room just above the retry is
      too large. */
  lemma LargestRoomExactly(at: int -> Text, budget: int, lo: nat, room: nat)
    requires lo <= room && Grows(at, lo, room) && |at(0)| <= budget
    requires |at(room)| > budget ==> Retry(at, budget, room) >= lo
    ensures var k := Landing(at, budget, room);
            && k == (if |at(room)| <= budget then room else Retry(at, budget, room))
            && ((forall r | k < r <= room :: |at(r)| > budget)
                <==> |at(room)| <= budget || |at(Retry(at, budget, room) + 1)| > budget)
  {
    if |at(room)| > budget && room > 0 {
      var k := Retry(at, budget, room);
      if room - (|at(room)| - budget) >= 0 {
        GrowsBy(at, lo, room, k, room);
      }
      if |at(k + 1)| > budget {
        forall r | k < r <= room ensures |at(r)| > budget {
          GrowsBy(at, lo, room, k + 1, r);
        }
      }
    }
  }

  ghost predicate ExpandsAt(enc: Encoder, a: Failed, s: Text, x: Text, e: Text) {
    |enc(a, s + e)| + |x| <= |enc(a, s + x + e)|
  }

  ghost predicate PlainAt(enc: Encoder, a: Failed, s: Text, e: Text) {
    |enc(a, s + e)| == |enc(a, s)| + |e|
  }

  /** What marshalling an error text does to its length: text put into the middle adds at least its
      own bytes, and the ending e is not escaped. */
  ghost predicate Expands(enc: Encoder, a: Failed, e: Text) {
    && Printable(e)
    && (forall s: Text, x: Text, f: Text {:trigger ExpandsAt(enc, a, s, x, f)} ::
          Printable(s) && Printable(x) && Printable(f) ==> ExpandsAt(enc, a, s, x, f))
    && (forall s: Text {:trigger PlainAt(enc, a, s, e)} :: Printable(s) ==> PlainAt(enc, a, s, e))
  }

  lemma BetweenCuts(t: Text, i: nat, j: nat) returns (x: Text)
    requires i <= j <= |t| && Printable(t[..i]) && Printable(t[..j])
    ensures |x| == j - i && Printable(x) && t[..j] == t[..i] + x
  {
    x := t[..j][i..];
    assert t[..j][..i] == t[..i];
    PrintableRest(t[..j], i);
  }

  lemma {:induction false} PrintableRest(s: Text, k: nat)
    requires Printable(s) && k <= |s| && Printable(s[..k])
    ensures Printable(s[k..])
  {
    if k > 0 {
      var n := RuneLen(s);
      CutPoints(s, k);
      if k < n {
        RuneParts(s, k);
      }
      RuneLenOfOwnPrefix(s);
      CutTwice(s, n, k);
      RuneLenPrefix(s[..n], s[..k][n..]);
      PrintableRest(s[n..], k - n);
      assert s[n..][k - n..] == s[k..];
    }
  }

  /** From p to q the text does not get shorter, and the entry grows by at least as much as the
      text. */
  ghost predicate Steadily(enc: Encoder, a: Failed, p: Text, q: Text) {
    |p| <= |q| && |enc(a, p)| + (|q| - |p|) <= |enc(a, q)|
  }

  lemma InsertIsSteady(enc: Encoder, a: Failed, s: Text, x: Text, f: Text, e: Text)
    requires Expands(enc, a, e) && Printable(s) && Printable(x) && Printable(f)
    ensures Steadily(enc, a, s + f, s + x + f)
  {
    hide Printable;
    assert ExpandsAt(enc, a, s, x, f);
  }

  lemma EmptyIsPrintable()
    ensures Printable([])
  {
  }

  /** Two cuts of a text with the same ending: the longer one costs more. */
  lemma SteadyCuts(enc: Encoder, a: Failed, t: Text, i: nat, j: nat, f: Text, e: Text)
    requires Expands(enc, a, e) && i <= j <= |t| && Printable(t[..i]) && Printable(t[..j]) && Printable(f)
    ensures Steadily(enc, a, t[..i] + f, t[..j] + f)
  {
    hide Expands, Printable, Steadily;
    var x := BetweenCuts(t, i, j);
    InsertIsSteady(enc, a, t[..i], x, f, e);
  }

  lemma SteadyBare(enc: Encoder, a: Failed, t: Text, i: nat, j: nat, e: Text)
    requires Expands(enc, a, e) && i <= j <= |t| && Printable(t[..i]) && Printable(t[..j])
    ensures Steadily(enc, a, t[..i], t[..j])
  {
    hide Expands, Printable, Steadily;
    EmptyIsPrintable();
    SteadyCuts(enc, a, t, i, j, [], e);
    assert t[..i] + [] == t[..i] && t[..j] + [] == t[..j];
  }

  /** Dropping the ending for the rest of the text, which is longer. */
  lemma SteadyWhole(enc: Encoder, a: Failed, t: Text, i: nat, e: Text)
    requires Expands(enc, a, e) && Printable(t) && i + |e| <= |t| && Printable(t[..i])
    ensures Steadily(enc, a, t[..i] + e, t)
  {
    hide Printable;
    assert t[..|t|] == t;
    SteadyBare(enc, a, t, i, |t|, e);
    assert PlainAt(enc, a, t[..i], e);
  }

  /** cut(n) is the largest cut of t at or below n. */
  ghost predicate CutAt(t: Text, cut: nat -> nat, n: nat)
    requires n <= |t|
  {
    cut(n) <= n && Printable(t[..cut(n)]) && forall m | cut(n) < m <= n :: !Printable(t[..m])
  }

  ghost predicate Cuts(t: Text, cut: nat -> nat) {
    forall n: nat {:trigger CutAt(t, cut, n)} :: n <= |t| ==> CutAt(t, cut, n)
  }

  lemma CutsOrdered(t: Text, cut: nat -> nat, m: nat, n: nat)
    requires Printable(t) && Cuts(t, cut) && m <= n <= |t|
    ensures cut(m) <= m && cut(n) <= n && cut(m) <= cut(n)
    ensures Printable(t[..cut(m)]) && Printable(t[..cut(n)])
    ensures n == |t| ==> cut(n) == n
  {
    hide Printable;
    assert CutAt(t, cut, m) && CutAt(t, cut, n);
    assert t[..|t|] == t;
  }

  /** How t is shortened to a room: whole runes, with the ending e where there is room for it. */
  function Shortened(t: Text, e: Text, cut: nat -> nat, r: nat): Text {
    if r <= |e| || r >= |t| then Take(t, cut(r)) else Take(t, cut(r - |e|)) + e
  }

  function Take(t: Text, n: nat): Text {
    if n <= |t| then t[..n] else t
  }

  ghost predicate ShortensAt(t: Text, kept: int -> Text, e: Text, cut: nat -> nat, r: nat) {
    kept(r) == Shortened(t, e, cut, r)
  }

  ghost predicate Shortens(t: Text, kept: int -> Text, e: Text, cut: nat -> nat) {
    && Cuts(t, cut)
    && forall r: nat {:trigger ShortensAt(t, kept, e, cut, r)} :: r <= |t| ==> ShortensAt(t, kept, e, cut, r)
  }

  /** Rooms r and q are on the same side of a marker of length m. */
  predicate SameSide(m: nat, r: nat, q: nat) {
    q <= m || r > m
  }

  lemma SteadyBelow(enc: Encoder, a: Failed, t: Text, e: Text, cut: nat -> nat, r: nat, q: nat)
    requires Expands(enc, a, e) && Printable(t) && Cuts(t, cut) && r <= q <= |t| && (q <= |e| || r == |t|)
    ensures Steadily(enc, a, Shortened(t, e, cut, r), Shortened(t, e, cut, q))
  {
    hide Expands, Printable, Cuts, Steadily;
    CutsOrdered(t, cut, r, q);
    SteadyBare(enc, a, t, cut(r), cut(q), e);
  }

  lemma AboveIs(t: Text, e: Text, cut: nat -> nat, r: nat)
    requires |e| < r < |t| && cut(r - |e|) <= |t|
    ensures Shortened(t, e, cut, r) == t[..cut(r - |e|)] + e
  {
  }

  lemma SteadyAbove(enc: Encoder, a: Failed, t: Text, e: Text, cut: nat -> nat, r: nat, q: nat)
    requires Expands(enc, a, e) && |e| < r <= q < |t|
    requires var i, j := cut(r - |e|), cut(q - |e|); i <= j <= |t| && Printable(t[..i]) && Printable(t[..j])
    ensures Steadily(enc, a, Shortened(t, e, cut, r), Shortened(t, e, cut, q))
  {
    hide Expands, Printable, Shortened, Steadily;
    AboveIs(t, e, cut, r);
    AboveIs(t, e, cut, q);
    SteadyTexts(enc, a, t, cut(r - |e|), cut(q - |e|), e, Shortened(t, e, cut, r), Shortened(t, e, cut, q));
  }

  lemma SteadyTexts(enc: Encoder, a: Failed, t: Text, i: nat, j: nat, e: Text, p: Text, q: Text)
    requires Expands(enc, a, e) && i <= j <= |t| && Printable(t[..i]) && Printable(t[..j])
    requires p == t[..i] + e && q == t[..j] + e
    ensures Steadily(enc, a, p, q)
  {
    hide Printable, Steadily;
    SteadyCuts(enc, a, t, i, j, e, e);
  }

  lemma SteadyToWhole(enc: Encoder, a: Failed, t: Text, e: Text, cut: nat -> nat, r: nat)
    requires Expands(enc, a, e) && Printable(t) && Cuts(t, cut) && |e| < r < |t|
    ensures Steadily(enc, a, Shortened(t, e, cut, r), Shortened(t, e, cut, |t|))
  {
    hide Expands, Printable, Cuts, Shortened, Steadily;
    CutsOrdered(t, cut, r - |e|, |t|);
    AboveIs(t, e, cut, r);
    WholeIs(t, e, cut);
    WholeTexts(enc, a, t, cut(r - |e|), e, Shortened(t, e, cut, r), Shortened(t, e, cut, |t|));
  }

  lemma WholeIs(t: Text, e: Text, cut: nat -> nat)
    requires cut(|t|) == |t|
    ensures Shortened(t, e, cut, |t|) == t
  {
    assert t[..|t|] == t;
  }

  lemma WholeTexts(enc: Encoder, a: Failed, t: Text, i: nat, e: Text, p: Text, q: Text)
    requires Expands(enc, a, e) && Printable(t) && i + |e| <= |t| && Printable(t[..i])
    requires p == t[..i] + e && q == t
    ensures Steadily(enc, a, p, q)
  {
    hide Expands, Printable, Steadily;
    SteadyWhole(enc, a, t, i, e);
  }

  /** More room on the same side of the marker. */
  lemma Steady(enc: Encoder, a: Failed, t: Text, e: Text, cut: nat -> nat, r: nat, q: nat)
    requires Expands(enc, a, e) && Printable(t) && Cuts(t, cut) && r <= q <= |t| && SameSide(|e|, r, q)
    ensures Steadily(enc, a, Shortened(t, e, cut, r), Shortened(t, e, cut, q))
  {
    hide Expands, Printable, Cuts, Shortened, Steadily;
    if q <= |e| || r == |t| {
      SteadyBelow(enc, a, t, e, cut, r, q);
    } else if q < |t| {
      CutsOrdered(t, cut, r - |e|, q - |e|);
      SteadyAbove(enc, a, t, e, cut, r, q);
    } else {
      SteadyToWhole(enc, a, t, e, cut, r);
    }
  }

  lemma FirstRune(s: Text) returns (n: nat)
    requires Printable(s) && s != []
    ensures 0 < n <= 4 && n <= |s| && Printable(s[..n])
  {
    n := RuneLen(s);
    RuneLenOfOwnPrefix(s);
    OneRune(s[..n]);
  }

  lemma OneRune(s: Text)
    requires s != [] && RuneLen(s) == |s| && !ControlHead(s)
    ensures Printable(s)
  {
    assert s[RuneLen(s)..] == [];
  }

  lemma NextCut(t: Text, b: nat) returns (n: nat)
    requires Printable(t) && b < |t| && Printable(t[..b])
    ensures b < n <= b + 4 && n <= |t| && Printable(t[..n])
  {
    hide Printable;
    PrintableRest(t, b);
    var k := FirstRune(t[b..]);
    n := b + k;
    PrintableConcat(t[..b], t[b..][..k]);
    assert t[..b] + t[b..][..k] == t[..n];
  }

  /** A rune is at most four bytes long, so four more bytes of room keep more text. */
  lemma FourBytesMore(t: Text, cut: nat -> nat, m: nat)
    requires Printable(t) && Cuts(t, cut) && m + 4 <= |t|
    ensures cut(m) < cut(m + 4)
  {
    hide Printable;
    CutsOrdered(t, cut, m, m + 4);
    var n := NextCut(t, cut(m));
    assert CutAt(t, cut, m + 4);
  }

  /** The length kept at a room. */
  function LengthAt(t: Text, e: Text, cut: nat -> nat, r: nat): nat {
    if r == |t| then r else if r <= |e| then cut(r) else cut(r - |e|) + |e|
  }

  lemma LengthIs(t: Text, e: Text, cut: nat -> nat, r: nat)
    requires Printable(t) && Cuts(t, cut) && r <= |t|
    ensures |Shortened(t, e, cut, r)| == LengthAt(t, e, cut, r)
  {
    hide Printable, Cuts;
    CutsOrdered(t, cut, r, r);
    if |e| < r < |t| {
      CutsOrdered(t, cut, r - |e|, r);
    }
  }

  lemma Widens(t: Text, e: Text, cut: nat -> nat, r: nat)
    requires Printable(t) && Cuts(t, cut) && r + 4 <= |t| && SameSide(|e|, r, r + 4)
    ensures LengthAt(t, e, cut, r) < LengthAt(t, e, cut, r + 4)
  {
    hide Printable, Cuts;
    if r + 4 <= |e| {
      FourBytesMore(t, cut, r);
      CutsOrdered(t, cut, r + 4, r + 4);
    } else {
      FourBytesMore(t, cut, r - |e|);
      CutsOrdered(t, cut, r - |e|, r);
    }
  }

  /** With room for the ending, the text kept is at least as long as any kept without it. */
  lemma EndingSideIsLonger(t: Text, e: Text, cut: nat -> nat, r: nat, q: nat)
    requires Printable(t) && Cuts(t, cut) && r <= |e| < q <= |t|
    ensures LengthAt(t, e, cut, r) <= |e| <= LengthAt(t, e, cut, q)
    ensures q >= |e| + 4 ==> LengthAt(t, e, cut, q) > |e|
  {
    hide Printable, Cuts;
    CutsOrdered(t, cut, r, q);
    if q >= |e| + 4 {
      FourBytesMore(t, cut, q - |e| - 4);
    }
  }

  ghost predicate Rises(len: nat -> nat, cost: nat -> nat, r: nat, q: nat) {
    len(r) <= len(q) && cost(r) + (len(q) - len(r)) <= cost(q)
  }

  ghost predicate Wider(len: nat -> nat, r: nat) {
    len(r) < len(r + 4)
  }

  ghost predicate Over(len: nat -> nat, m: nat, r: nat, q: nat) {
    len(r) <= m <= len(q) && (q >= m + 4 ==> len(q) > m)
  }

  /** What the rooms of a text keep, len, and what they cost, in numbers. */
  ghost predicate Profile(len: nat -> nat, cost: nat -> nat, m: nat, top: nat) {
    && (forall r: nat, q: nat {:trigger Rises(len, cost, r, q)} ::
          r <= q <= top && SameSide(m, r, q) ==> Rises(len, cost, r, q))
    && (forall r: nat {:trigger Wider(len, r)} :: r + 4 <= top && SameSide(m, r, r + 4) ==> Wider(len, r))
    && (forall r: nat, q: nat {:trigger Over(len, m, r, q)} :: r <= m < q <= top ==> Over(len, m, r, q))
  }

  /** No room up to top keeps more within the budget than k does. */
  ghost predicate Best(len: nat -> nat, cost: nat -> nat, budget: int, top: nat, k: nat) {
    forall r: nat | r <= top && cost(r) <= budget :: len(r) <= len(k)
  }

  /** The four rooms above k, and the first four with a marker of length m. */
  predicate Near(m: nat, k: nat, r: nat) {
    k < r <= k + 4 || m < r <= m + 4
  }

  ghost predicate BestNearby(len: nat -> nat, cost: nat -> nat, budget: int, m: nat, top: nat, k: nat) {
    forall r: nat | r <= top && Near(m, k, r) && cost(r) <= budget :: len(r) <= len(k)
  }

  /** A room that keeps more and fits has one nearby that does. */
  lemma BetterNearby(len: nat -> nat, cost: nat -> nat, m: nat, top: nat, k: nat, r: nat) returns (q: nat)
    requires Profile(len, cost, m, top) && k < r <= top && len(r) > len(k)
    ensures q <= top && Near(m, k, q) && cost(q) <= cost(r) && len(q) > len(k)
  {
    q := r;
    if SameSide(m, k, r) {
      if r > k + 4 {
        q := k + 4;
        assert Wider(len, k) && Rises(len, cost, q, r);
      }
    } else if r > m + 4 {
      q := m + 4;
      assert Over(len, m, k, q) && Rises(len, cost, q, r);
    }
  }

  lemma BetterIsAbove(len: nat -> nat, cost: nat -> nat, m: nat, top: nat, k: nat, r: nat)
    requires Profile(len, cost, m, top) && k <= top && r <= k
    ensures len(r) <= len(k)
  {
    if SameSide(m, r, k) {
      assert Rises(len, cost, r, k);
    } else {
      assert Over(len, m, r, k);
    }
  }

  lemma NearbyIsEnough(len: nat -> nat, cost: nat -> nat, budget: int, m: nat, top: nat, k: nat)
    requires Profile(len, cost, m, top) && k <= top
    ensures Best(len, cost, budget, top, k) <==> BestNearby(len, cost, budget, m, top, k)
  {
    if !Best(len, cost, budget, top, k) {
      var r: nat :| r <= top && cost(r) <= budget && len(r) > len(k);
      forall s: nat | s <= k ensures len(s) <= len(k) {
        BetterIsAbove(len, cost, m, top, k, s);
      }
      var q := BetterNearby(len, cost, m, top, k, r);
    }
  }

  function Len(kept: int -> Text): nat -> nat {
    (r: nat) => |kept(r)|
  }

  function Cost(enc: Encoder, a: Failed, kept: int -> Text): nat -> nat {
    (r: nat) => |enc(a, kept(r))|
  }

  lemma RoomIs(enc: Encoder, a: Failed, t: Text, kept: int -> Text, e: Text, cut: nat -> nat, r: nat)
    requires Printable(t) && Shortens(t, kept, e, cut) && r <= |t|
    ensures Len(kept)(r) == LengthAt(t, e, cut, r) == |Shortened(t, e, cut, r)|
    ensures Cost(enc, a, kept)(r) == |enc(a, Shortened(t, e, cut, r))|
  {
    hide Printable, Cuts, Shortened, LengthAt;
    assert ShortensAt(t, kept, e, cut, r);
    LengthIs(t, e, cut, r);
  }

  lemma RoomsRise(enc: Encoder, a: Failed, t: Text, kept: int -> Text, e: Text, cut: nat -> nat, r: nat, q: nat)
    requires Expands(enc, a, e) && Printable(t) && Shortens(t, kept, e, cut) && r <= q <= |t| && SameSide(|e|, r, q)
    ensures Rises(Len(kept), Cost(enc, a, kept), r, q)
  {
    hide Expands, Printable, Cuts, ShortensAt, Shortened, LengthAt, Len, Cost;
    RoomIs(enc, a, t, kept, e, cut, r);
    RoomIs(enc, a, t, kept, e, cut, q);
    Steady(enc, a, t, e, cut, r, q);
  }

  lemma RoomsWiden(enc: Encoder, a: Failed, t: Text, kept: int -> Text, e: Text, cut: nat -> nat, r: nat)
    requires Printable(t) && Shortens(t, kept, e, cut) && r + 4 <= |t| && SameSide(|e|, r, r + 4)
    ensures Wider(Len(kept), r)
  {
    hide Printable, Cuts, ShortensAt, Shortened, LengthAt, Len, Cost;
    RoomIs(enc, a, t, kept, e, cut, r);
    RoomIs(enc, a, t, kept, e, cut, r + 4);
    Widens(t, e, cut, r);
  }

  lemma RoomsOver(enc: Encoder, a: Failed, t: Text, kept: int -> Text, e: Text, cut: nat -> nat, r: nat, q: nat)
    requires Printable(t) && Shortens(t, kept, e, cut) && r <= |e| < q <= |t|
    ensures Over(Len(kept), |e|, r, q)
  {
    hide Printable, Cuts, ShortensAt, Shortened, LengthAt, Len, Cost;
    RoomIs(enc, a, t, kept, e, cut, r);
    RoomIs(enc, a, t, kept, e, cut, q);
    EndingSideIsLonger(t, e, cut, r, q);
  }

  lemma ProfileOf(enc: Encoder, a: Failed, t: Text, kept: int -> Text, e: Text, cut: nat -> nat)
    requires Expands(enc, a, e) && Printable(t) && Shortens(t, kept, e, cut)
    ensures Profile(Len(kept), Cost(enc, a, kept), |e|, |t|)
  {
    hide Expands, Printable, Shortens, Len, Cost, Rises, Wider, Over, SameSide;
    var len, cost := Len(kept), Cost(enc, a, kept);
    forall r: nat, q: nat | r <= q <= |t| && SameSide(|e|, r, q) ensures Rises(len, cost, r, q) {
      RoomsRise(enc, a, t, kept, e, cut, r, q);
    }
    forall r: nat | r + 4 <= |t| && SameSide(|e|, r, r + 4) ensures Wider(len, r) {
      RoomsWiden(enc, a, t, kept, e, cut, r);
    }
    forall r: nat, q: nat | r <= |e| < q <= |t| ensures Over(len, |e|, r, q) {
      RoomsOver(enc, a, t, kept, e, cut, r, q);
    }
  }

  /** The text TruncateHeader keeps of the attempt's error at each room. */
  function Kept(a: Failed): int -> Text {
    (room: int) => TruncateHeader(Sanitized(a.err), room)
  }

  function CutsOf(t: Text): nat -> nat {
    (n: nat) => Boundary(t, n)
  }

  lemma CutForms(t: Text, r: nat)
    requires 0 < r <= |t|
    ensures Cut(t, r) == Shortened(t, MARKER, CutsOf(t), r)
  {
    hide Printable;
    assert t[..Boundary(t, r)] + [] == t[..Boundary(t, r)];
    assert r == |t| ==> t[..Boundary(t, r)] == t;
  }

  lemma KeptForm(a: Failed, r: nat)
    requires r <= |Sanitized(a.err)|
    ensures ShortensAt(Sanitized(a.err), Kept(a), MARKER, CutsOf(Sanitized(a.err)), r)
  {
    hide Printable;
    var t := Sanitized(a.err);
    SanitizedIsPrintable(a.err);
    PrintableIsKept(t);
    if r > 0 {
      CutForms(t, r);
      assert TruncateHeader(t, r) == Cut(t, r);
    } else {
      assert TruncateHeader(t, 0) == [] && t[..0] == [];
    }
  }

  lemma KeptShortens(a: Failed)
    ensures var t := Sanitized(a.err); Printable(t) && Shortens(t, Kept(a), MARKER, CutsOf(t))
  {
    hide Printable, Sanitized, ShortensAt, Kept;
    var t := Sanitized(a.err);
    SanitizedIsPrintable(a.err);
    forall n: nat | n <= |t| ensures CutAt(t, CutsOf(t), n) {
      BoundaryIsLargestCut(t, n);
    }
    forall r: nat | r <= |t| ensures ShortensAt(t, Kept(a), MARKER, CutsOf(t), r) {
      KeptForm(a, r);
    }
  }

  lemma AtRoomIsKept(enc: Encoder, a: Failed, r: int)
    ensures AtRoom(enc, a)(r) == enc(a, Kept(a)(r))
    ensures AtRoom(enc, a)(0) == enc(a, [])
  {
    assert TruncateHeader(Sanitized(a.err), 0) == [];
  }

  lemma ShrinkLands(enc: Encoder, a: Failed, budget: int)
    requires |enc(a, [])| <= budget
    ensures var room := StartRoom(enc, a, budget);
            var k := Landing(AtRoom(enc, a), budget, room);
            k <= room <= |Sanitized(a.err)| && Shrink(enc, a, budget) == Some(enc(a, Kept(a)(k)))
  {
    var room := StartRoom(enc, a, budget);
    AtRoomIsKept(enc, a, Landing(AtRoom(enc, a), budget, room));
    EndsAtLanding(AtRoom(enc, a), budget, room);
  }

  lemma BestExactly(enc: Encoder, a: Failed, budget: int, k: nat)
    requires Expands(enc, a, MARKER) && k <= |Sanitized(a.err)|
    ensures Best(Len(Kept(a)), Cost(enc, a, Kept(a)), budget, |Sanitized(a.err)|, k)
            <==> BestNearby(Len(Kept(a)), Cost(enc, a, Kept(a)), budget, |MARKER|, |Sanitized(a.err)|, k)
  {
    hide Expands, Printable, Shortens, Profile, Best, BestNearby, Sanitized, Len, Cost, Kept;
    KeptShortens(a);
    ProfileOf(enc, a, Sanitized(a.err), Kept(a), MARKER, CutsOf(Sanitized(a.err)));
    NearbyIsEnough(Len(Kept(a)), Cost(enc, a, Kept(a)), budget, |MARKER|, |Sanitized(a.err)|, k);
  }

  /** Exactly when the shortened entry keeps the longest text that fits, for every text, every budget
      and every encoder that only expands: when none of at most eight rooms does better, the four
      above the one where the loop stops and the first four with a marker. The rooms compared are all
      that shorten the text, those above the first try included. */
  lemma LongestExactly(enc: Encoder, a: Failed, budget: int)
    requires Expands(enc, a, MARKER) && |enc(a, [])| <= budget
    ensures var top := |Sanitized(a.err)|;
            var k := Landing(AtRoom(enc, a), budget, StartRoom(enc, a, budget));
            && k <= top
            && Shrink(enc, a, budget) == Some(enc(a, Kept(a)(k)))
            && (Best(Len(Kept(a)), Cost(enc, a, Kept(a)), budget, top, k)
                <==> BestNearby(Len(Kept(a)), Cost(enc, a, Kept(a)), budget, |MARKER|, top, k))
  {
    hide Expands, Best, BestNearby, Sanitized, Len, Cost, Kept, Shrink;
    ShrinkLands(enc, a, budget);
    BestExactly(enc, a, budget, Landing(AtRoom(enc, a), budget, StartRoom(enc, a, budget)));
  }

  /** No rune is longer than one byte. */
  predicate SingleBytes(t: Text) {
    forall i | 0 <= i < |t| :: 0x20 <= t[i] < 0x7F
  }

  lemma SingleByteCut(t: Text, r: nat)
    requires SingleBytes(t) && r <= |t|
    ensures CutsOf(t)(r) == r
  {
  }

  lemma SingleByteLength(enc: Encoder, a: Failed, t: Text, kept: int -> Text, e: Text, r: nat)
    requires SingleBytes(t) && Shortens(t, kept, e, CutsOf(t)) && r <= |t|
    ensures Len(kept)(r) == r
  {
    hide Printable, Shortens, Shortened, Len, Cost;
    AsciiIsPrintable(t);
    SingleByteCut(t, if r <= |e| || r == |t| then r else r - |e|);
    RoomIs(enc, a, t, kept, e, CutsOf(t), r);
  }

  /** One more byte of room is too much, or there is nothing more to keep. */
  predicate TightAt(cost: nat -> nat, budget: int, top: nat, r: nat) {
    r < top ==> cost(r + 1) > budget
  }

  lemma TightIsBest(len: nat -> nat, cost: nat -> nat, budget: int, m: nat, top: nat, k: nat)
    requires Profile(len, cost, m, top) && k <= top && forall r: nat | r <= top :: len(r) == r
    ensures Best(len, cost, budget, top, k)
            <==> TightAt(cost, budget, top, k) && (k <= m ==> TightAt(cost, budget, top, m))
  {
    if TightAt(cost, budget, top, k) && (k <= m ==> TightAt(cost, budget, top, m)) {
      forall r: nat | k < r <= top ensures cost(r) > budget {
        var q := if SameSide(m, k + 1, r) then k + 1 else m + 1;
        assert Rises(len, cost, q, r);
      }
    } else {
      var q := if TightAt(cost, budget, top, k) then m + 1 else k + 1;
      assert len(q) > len(k);
    }
  }

  lemma RoomCosts(enc: Encoder, a: Failed, r: nat)
    requires Expands(enc, a, MARKER) && r <= |Sanitized(a.err)|
    ensures Cost(enc, a, Kept(a))(r) >= |enc(a, [])| + Len(Kept(a))(r)
    ensures AtRoom(enc, a)(r) == enc(a, Kept(a)(r))
  {
    hide Printable, Sanitized, TruncateHeader;
    var x := Kept(a)(r);
    if r > 0 {
      BoundedAndPrintable(Sanitized(a.err), r);
    }
    AtRoomIsKept(enc, a, r);
    AtRoomIsKept(enc, a, 0);
    EmptyIsPrintable();
    KeptIsPrintable(a, r);
    var none: Text := [];
    assert ExpandsAt(enc, a, none, x, none);
    assert none + x + none == x && none + none == none;
  }

  lemma KeptIsPrintable(a: Failed, r: nat)
    ensures Printable(Kept(a)(r))
  {
    if r > 0 {
      BoundedAndPrintable(Sanitized(a.err), r);
    }
  }

  /** For text of single bytes the condition is two rooms: the entry keeps the longest text that fits
      if and only if one more byte of room than the loop stopped at is too much and, where it stopped
      without room for the marker, the first room with a marker is too. A first try that fits keeps
      the longest. */
  lemma SingleByteLongestExactly(enc: Encoder, a: Failed, budget: int)
    requires SingleBytes(Sanitized(a.err)) && Expands(enc, a, MARKER) && |enc(a, [])| <= budget
    ensures var top := |Sanitized(a.err)|;
            var room := StartRoom(enc, a, budget);
            var k := Landing(AtRoom(enc, a), budget, room);
            var cost := Cost(enc, a, Kept(a));
            && k <= top
            && (Best(Len(Kept(a)), cost, budget, top, k)
                <==> TightAt(cost, budget, top, k) && (k <= |MARKER| ==> TightAt(cost, budget, top, |MARKER|)))
            && (room >= 0 && |AtRoom(enc, a)(room)| <= budget ==> Best(Len(Kept(a)), cost, budget, top, k))
  {
    hide Expands, Printable, Shortens, Profile, Sanitized, Len, Cost, Kept, Shrink, AtRoom, SingleBytes;
    var t, kept := Sanitized(a.err), Kept(a);
    var len, cost := Len(kept), Cost(enc, a, kept);
    var room := StartRoom(enc, a, budget);
    var k := Landing(AtRoom(enc, a), budget, room);
    ShrinkLands(enc, a, budget);
    KeptShortens(a);
    ProfileOf(enc, a, t, kept, MARKER, CutsOf(t));
    forall r: nat | r <= |t| ensures len(r) == r && cost(r) >= |enc(a, [])| + r {
      SingleByteLength(enc, a, t, kept, MARKER, r);
      RoomCosts(enc, a, r);
    }
    TightIsBest(len, cost, budget, |MARKER|, |t|, k);
  }

  lemma SingleByteGrows(enc: Encoder, a: Failed, lo: nat, hi: nat)
    requires SingleBytes(Sanitized(a.err)) && Expands(enc, a, MARKER)
    requires lo <= hi <= |Sanitized(a.err)| && SameSide(|MARKER|, lo, hi)
    ensures Grows(AtRoom(enc, a), lo, hi)
  {
    hide Expands, Printable, Shortens, Sanitized, Kept, AtRoom, SingleBytes;
    var t, kept := Sanitized(a.err), Kept(a);
    KeptShortens(a);
    forall r: int | lo <= r < hi ensures |AtRoom(enc, a)(r)| < |AtRoom(enc, a)(r + 1)| {
      RoomsRise(enc, a, t, kept, MARKER, CutsOf(t), r, r + 1);
      SingleByteLength(enc, a, t, kept, MARKER, r);
      SingleByteLength(enc, a, t, kept, MARKER, r + 1);
      AtRoomIsKept(enc, a, r);
      AtRoomIsKept(enc, a, r + 1);
    }
  }

  /** For such text one retry is enough, unless it crosses the room the marker needs. */
  lemma OneRetryIsEnough(enc: Encoder, a: Failed, budget: int, room: nat)
    requires SingleBytes(Sanitized(a.err)) && Expands(enc, a, MARKER) && |enc(a, [])| <= budget
    requires room <= |Sanitized(a.err)| && |AtRoom(enc, a)(room)| > budget
    requires var next := Retry(AtRoom(enc, a), budget, room); SameSide(|MARKER|, next, room)
    ensures Landing(AtRoom(enc, a), budget, room) == Retry(AtRoom(enc, a), budget, room)
  {
    hide Expands, Sanitized, AtRoom, SingleBytes, Grows;
    var next := Retry(AtRoom(enc, a), budget, room);
    SingleByteGrows(enc, a, next, room);
    AtRoomIsKept(enc, a, 0);
    LargestRoomExactly(AtRoom(enc, a), budget, next, room);
  }

  /** U+2028 and U+2029, which encoding/json escapes for the sake of JavaScript. */
  const LINE_SEPARATOR: Text := [0xE2, 0x80, 0xA8]
  const PARAGRAPH_SEPARATOR: Text := [0xE2, 0x80, 0xA9]

  /** How encoding/json writes a rune that is no control character, HTML escaping off. */
  function QuotedRune(r: Text): Text
    requires r != []
  {
    if r == [0x22] || r == [0x5C] then [0x5C, r[0]]
    else if r == LINE_SEPARATOR then [0x5C, 0x75, 0x32, 0x30, 0x32, 0x38]
    else if r == PARAGRAPH_SEPARATOR then [0x5C, 0x75, 0x32, 0x30, 0x32, 0x39]
    else r
  }

  /** \ufffd, for a byte that is not UTF-8. */
  const ESCAPED_REPLACEMENT: Text := [0x5C, 0x75, 0x66, 0x66, 0x66, 0x64]

  /** The text between the quotation marks of an entry. */
  function Quoted(t: Text): Text {
    if t == [] then []
    else if RuneLen(t) == 0 then ESCAPED_REPLACEMENT + Quoted(t[1..])
    else QuotedRune(t[..RuneLen(t)]) + Quoted(t[RuneLen(t)..])
  }

  /** An entry: what comes before the error text, the text escaped, and what comes after it. */
  function Entry(head: Text, tail: Text): Encoder {
    (a: Failed, t: Text) => head + Quoted(t) + tail
  }

  lemma {:induction false} QuotedConcat(s: Text, t: Text)
    requires Printable(s)
    ensures Quoted(s + t) == Quoted(s) + Quoted(t)
    ensures |Quoted(s)| >= |s|
  {
    hide Printable, RuneLen;
    if s == [] {
      assert s + t == t;
    } else {
      FirstOfPrintable(s);
      var n := RuneLen(s);
      RuneLenPrefix(s, t);
      FirstOfBoth(s, t, n);
      QuotedConcat(s[n..], t);
    }
  }

  /** No byte of an escaped rune occurs. */
  predicate Plain(t: Text) {
    forall i | 0 <= i < |t| :: t[i] != 0x22 && t[i] != 0x5C && t[i] != 0xA8 && t[i] != 0xA9
  }

  lemma PlainRune(r: Text)
    requires r != [] && Plain(r)
    ensures QuotedRune(r) == r
  {
    assert r[0] != 0x22 && r[0] != 0x5C;
    assert |r| == 3 ==> r[2] != 0xA8 && r[2] != 0xA9;
  }

  lemma {:induction false} QuotedPlain(t: Text)
    requires Printable(t) && Plain(t)
    ensures Quoted(t) == t
  {
    hide Printable, RuneLen, QuotedRune;
    if t != [] {
      FirstOfPrintable(t);
      var n := RuneLen(t);
      PlainRune(t[..n]);
      QuotedPlain(t[n..]);
      assert t == t[..n] + t[n..];
    }
  }

  lemma EntryExpandsAt(head: Text, tail: Text, a: Failed, s: Text, x: Text, e: Text)
    requires Printable(s) && Printable(x)
    ensures ExpandsAt(Entry(head, tail), a, s, x, e)
  {
    hide Printable, Quoted;
    PrintableConcat(s, x);
    QuotedConcat(s, e);
    QuotedConcat(s + x, e);
    QuotedConcat(s, x);
    QuotedConcat(x, e);
  }

  lemma EntryPlainAt(head: Text, tail: Text, a: Failed, s: Text, e: Text)
    requires Printable(s) && Printable(e) && Plain(e)
    ensures PlainAt(Entry(head, tail), a, s, e)
  {
    hide Printable, Quoted;
    QuotedConcat(s, e);
    QuotedPlain(e);
  }

  lemma EntryExpandsWith(head: Text, tail: Text, a: Failed, e: Text)
    requires Printable(e) && Plain(e)
    ensures Expands(Entry(head, tail), a, e)
  {
    hide Printable, Plain, ExpandsAt, PlainAt, Entry;
    var enc := Entry(head, tail);
    forall s: Text, x: Text, f: Text | Printable(s) && Printable(x) ensures ExpandsAt(enc, a, s, x, f) {
      EntryExpandsAt(head, tail, a, s, x, f);
    }
    forall s: Text | Printable(s) ensures PlainAt(enc, a, s, e) {
      EntryPlainAt(head, tail, a, s, e);
    }
  }

  /** Entries are encoded in the way the exact condition asks for. */
  lemma EntryExpands(head: Text, tail: Text, a: Failed)
    ensures Expands(Entry(head, tail), a, MARKER)
  {
    hide Printable, Expands, Entry;
    MarkerIsPrintable();
    MarkerIsPlain();
    EntryExpandsWith(head, tail, a, MARKER);
  }

  lemma MarkerIsPlain()
    ensures Plain(MARKER)
  {
  }

  lemma {:induction false} QuotedMarks(n: nat)
    ensures |Quoted(seq(n, _ => 0x22))| == 2 * n
  {
    if n > 0 {
      var t: Text := seq(n, _ => 0x22);
      assert t[1..] == seq(n - 1, _ => 0x22) && t[..1] == [0x22];
      QuotedMarks(n - 1);
    }
  }

  /** The condition does fail: six quotation marks in an entry with six bytes left for them end up
      empty, though three of them would fit. */
  lemma EscapedMayKeepLess(head: Text, tail: Text)
    ensures var marks: Text := seq(6, _ => 0x22);
            var a := Failed(1, marks);
            var enc := Entry(head, tail);
            var budget := |head| + |tail| + 6;
            && Shrink(enc, a, budget) == Some(enc(a, []))
            && Kept(a)(3) == marks[..3] && |enc(a, Kept(a)(3))| == budget
  {
    hide Printable, Spaced, ToValid;
    var marks: Text := seq(6, _ => 0x22);
    var a := Failed(1, marks);
    var enc := Entry(head, tail);
    var budget := |head| + |tail| + 6;
    AsciiIsPrintable(marks);
    PrintableIsKept(marks);
    KeptShortens(a);
    SingleByteCut(marks, 3);
    assert ShortensAt(marks, Kept(a), MARKER, CutsOf(marks), 3) && ShortensAt(marks, Kept(a), MARKER, CutsOf(marks), 6);
    assert Kept(a)(3) == marks[..3] && Kept(a)(6) == marks;
    AtRoomIsKept(enc, a, 6);
    QuotedMarks(6);
    QuotedMarks(3);
    assert marks[..3] == seq(3, _ => 0x22);
    assert |enc(a, [])| == |head| + |tail|;
    assert StartRoom(enc, a, budget) == 6 && |AtRoom(enc, a)(6)| == budget + 6;
    assert ShrinkFrom(AtRoom(enc, a), enc(a, []), budget, 0) == enc(a, []);
  }

  /** U+00F6, eleven letters, U+00F6 and six letters. */
  const UMLAUT: Text := [0xC3, 0xB6]
  const UMLAUTS: Text := UMLAUT + seq(11, _ => 0x61) + UMLAUT + seq(6, _ => 0x61)

  lemma UmlautsArePrintable()
    ensures Printable(UMLAUTS) && Printable(UMLAUTS[..13]) && Plain(UMLAUTS[..13])
  {
    var long: Text, short: Text := seq(11, _ => 0x61), seq(6, _ => 0x61);
    assert UMLAUT[2..] == [];
    assert Printable(UMLAUT);
    AsciiIsPrintable(long);
    AsciiIsPrintable(short);
    PrintableConcat(UMLAUT, long);
    PrintableConcat(UMLAUT, short);
    PrintableConcat(UMLAUT + long, UMLAUT + short);
    assert UMLAUTS == UMLAUT + long + (UMLAUT + short) && UMLAUTS[..13] == UMLAUT + long;
  }

  lemma UmlautsKept(a: Failed)
    requires a.err == UMLAUTS
    ensures Sanitized(a.err) == UMLAUTS
    ensures Kept(a)(14) == UMLAUTS[..13] && Kept(a)(15) == MARKER
  {
    hide Printable, Spaced, ToValid;
    UmlautsArePrintable();
    PrintableIsKept(UMLAUTS);
    KeptForm(a, 14);
    KeptForm(a, 15);
    assert UMLAUTS[1] == 0xB6 && UMLAUTS[13] == 0xC3 && UMLAUTS[14] == 0xB6;
    assert Boundary(UMLAUTS, 14) == 13 && Boundary(UMLAUTS, 1) == 0;
    assert UMLAUTS[..0] + MARKER == MARKER;
  }

  /** It fails for longer runes as well, though the first try fits: with 14 bytes left the loop keeps
      13 bytes of this text, and one more byte of room would keep the marker, which is 14 bytes long. */
  lemma MoreRoomMayKeepMore(head: Text, tail: Text)
    ensures var a := Failed(1, UMLAUTS);
            var enc := Entry(head, tail);
            var budget := |head| + |tail| + 14;
            && Shrink(enc, a, budget) == Some(enc(a, UMLAUTS[..13]))
            && Kept(a)(15) == MARKER && |enc(a, Kept(a)(15))| == budget
  {
    hide Printable, Spaced, ToValid, Kept;
    var a := Failed(1, UMLAUTS);
    var enc := Entry(head, tail);
    UmlautsKept(a);
    UmlautsArePrintable();
    QuotedPlain(UMLAUTS[..13]);
    MarkerIsPrintable();
    MarkerIsPlain();
    QuotedPlain(MARKER);
    AtRoomIsKept(enc, a, 14);
    assert |enc(a, [])| == |head| + |tail|;
  }

  lemma QuotedEnd(t: Text)
    requires t == [0x61, 0x62, 0x63, 0x22]
    ensures |Quoted(t)| == 5 && Quoted(t[..3]) == t[..3]
  {
    AsciiIsPrintable(t[..3]);
    QuotedPlain(t[..3]);
    QuotedConcat(t[..3], t[3..]);
    assert t[..3] + t[3..] == t;
    assert t[3..][..1] == [0x22] && Quoted(t[3..]) == [0x5C, 0x22] + Quoted([]);
  }

  /** And it holds with an escape: when the cut-off end is what made the entry too long. */
  lemma EscapedEndKeepsTheMost(head: Text, tail: Text)
    ensures var t: Text := [0x61, 0x62, 0x63, 0x22];
            var a := Failed(1, t);
            var enc := Entry(head, tail);
            Shrink(enc, a, |head| + |tail| + 4) == Some(enc(a, t[..3]))
  {
    var t: Text := [0x61, 0x62, 0x63, 0x22];
    var a := Failed(1, t);
    var enc := Entry(head, tail);
    var budget := |head| + |tail| + 4;
    AsciiIsPrintable(t);
    PrintableIsKept(t);
    KeptShortens(a);
    SingleByteCut(t, 3);
    assert ShortensAt(t, Kept(a), MARKER, CutsOf(t), 3) && ShortensAt(t, Kept(a), MARKER, CutsOf(t), 4);
    assert Kept(a)(3) == t[..3] && Kept(a)(4) == t;
    AtRoomIsKept(enc, a, 3);
    AtRoomIsKept(enc, a, 4);
    QuotedEnd(t);
    assert StartRoom(enc, a, budget) == 4 && |AtRoom(enc, a)(4)| == budget + 1;
    assert AtRoom(enc, a)(3) == enc(a, t[..3]) && |AtRoom(enc, a)(3)| <= budget;
  }

  // ---------- the header ----------

  lemma {:induction false} JoinShrinks(parts: seq<Text>, k: nat)
    requires k < |parts| && forall i | 0 <= i < |parts| :: |parts[i]| > 0
    ensures |Join(parts[k..])| <= |Join(parts)| && (k > 0 ==> |Join(parts[k..])| < |Join(parts)|)
  {
    if k > 0 {
      JoinShrinks(parts[1..], k - 1);
      assert parts[1..][k - 1..] == parts[k..];
    } else {
      assert parts[0..] == parts;
    }
  }

  lemma JoinStep(parts: seq<Text>, k: nat)
    requires k < |parts|
    ensures |Join(parts[k..])| == |parts[k]| + (if k + 1 < |parts| then 1 + |Join(parts[k + 1..])| else 0)
  {
    assert parts[k..][1..] == parts[k + 1..];
  }

  /** The entries stand in order with one comma between neighbours. */
  lemma {:induction false} JoinedByCommas(parts: seq<Text>, k: nat)
    requires 0 < k < |parts|
    ensures Join(parts) == Join(parts[..k]) + [0x2C] + Join(parts[k..])
    ensures Join([parts[0]]) == parts[0]
  {
    assert [parts[0]] == parts[..1];
    if k > 1 {
      JoinedByCommas(parts[1..], k - 1);
      assert parts[1..][..k - 1] == parts[..k][1..] && parts[1..][k - 1..] == parts[k..];
    }
  }

  /** The suffix from entry k on fits the cap. */
  predicate Fits(parts: seq<Text>, k: nat, limit: nat)
    requires k <= |parts|
  {
    2 + |Join(parts[k..])| <= limit
  }

  /** first is where the longest suffix that fits begins, |parts| when none does. */
  ghost predicate LongestFrom(parts: seq<Text>, limit: nat, first: nat) {
    && first <= |parts|
    && (first < |parts| ==> Fits(parts, first, limit))
    && (forall k | 0 <= k < first && k < |parts| :: !Fits(parts, k, limit))
  }

  /** The walk from the newest entry back while the array still fits. */
  method ScanBack(parts: seq<Text>, limit: nat) returns (first: nat)
    requires forall i | 0 <= i < |parts| :: |parts[i]| > 0
    ensures LongestFrom(parts, limit, first)
  {
    SuffixesOrdered(parts, limit);
    var total := 2;
    first := |parts|;
    var i := |parts|;
    while i > 0
      invariant 0 <= i <= |parts| && first == i
      invariant total == 2 + (if first < |parts| then |Join(parts[first..])| else 0)
      invariant first < |parts| ==> total <= limit
      decreases i
    {
      var need := |parts[i - 1]|;
      if first != |parts| {
        need := need + 1;
      }
      JoinStep(parts, i - 1);
      if total + need > limit {
        assert !Fits(parts, i - 1, limit);
        return;
      }
      total := total + need;
      first := i - 1;
      i := i - 1;
    }
  }

  /** The header value: the longest contiguous suffix that fits; when not even the newest attempt
      does, that attempt alone, shortened; and an empty array as a last resort. */
  ghost predicate Value(enc: Encoder, history: seq<Failed>, limit: nat, value: Text)
    requires history != []
  {
    var parts := Parts(enc, history);
    exists first: nat :: LongestFrom(parts, limit, first)
      && value == (if first < |parts| then Array(Join(parts[first..]))
                   else match Shrink(enc, history[|history| - 1], limit - 2)
                     case Some(e) => Array(e)
                     case None => Array([]))
  }

  method EncodeHistoryHeader(enc: Encoder, history: seq<Failed>, capBytes: int)
    returns (value: Text, truncated: bool)
    requires Encodes(enc)
    ensures history == [] ==> value == [] && !truncated
    ensures |value| <= 2 || |value| <= capBytes
    ensures history != [] ==> |value| >= 2 && value[0] == 0x5B && value[|value| - 1] == 0x5D
    ensures history != [] ==> Value(enc, history, Cap(capBytes), value)
    // The flag tells exactly whether anything was dropped or shortened.
    ensures history != [] ==> (truncated <==> value != Array(Join(Parts(enc, history))))
  {
    if history == [] {
      return [], false;
    }
    var limit := Cap(capBytes);
    var parts := Parts(enc, history);
    PartsNonEmpty(enc, history);
    var first := ScanBack(parts, limit);
    if first == |parts| {
      var e := ShrinkHistoryEntry(enc, history[|history| - 1], limit - 2);
      ShrunkFits(enc, history[|history| - 1], limit - 2);
      value, truncated := Array(if e.Some? then e.value else []), true;
      TooLongToBeWhole(parts, limit, value);
    } else {
      value, truncated := Array(Join(parts[first..])), first > 0;
      WholeOrShorter(parts, first);
    }
    assert LongestFrom(parts, limit, first);
  }

  lemma WholeOrShorter(parts: seq<Text>, first: nat)
    requires first < |parts| && forall i | 0 <= i < |parts| :: |parts[i]| > 0
    ensures first > 0 <==> Array(Join(parts[first..])) != Array(Join(parts))
  {
    JoinShrinks(parts, first);
    assert parts[0..] == parts;
    assert |Array(Join(parts[first..]))| == 2 + |Join(parts[first..])|;
  }

  lemma TooLongToBeWhole(parts: seq<Text>, limit: nat, value: Text)
    requires parts != [] && !Fits(parts, 0, limit) && |value| <= limit
    ensures value != Array(Join(parts))
  {
    assert parts[0..] == parts;
  }

  /** A longer suffix never fits when a shorter one does not. */
  lemma SuffixesOrdered(parts: seq<Text>, limit: nat)
    requires forall i | 0 <= i < |parts| :: |parts[i]| > 0
    ensures forall j, k | 0 <= j <= k < |parts| && Fits(parts, j, limit) :: Fits(parts, k, limit)
  {
    forall j, k | 0 <= j <= k < |parts| && Fits(parts, j, limit) ensures Fits(parts, k, limit) {
      JoinShrinks(parts[j..], k - j);
      assert parts[j..][k - j..] == parts[k..];
    }
  }
}
