/** UUIDv7 generation (id.go): RFC 9562 section 5.7 with the 12-bit dedicated counter of
    section 6.2, Method 1. */
module Uuid {

  type Byte = b: int | 0 <= b < 256

  /** lastMS and the 12-bit counter. */
  datatype Gen = Gen(lastMS: nat, seqNo: nat)

  const START := Gen(0, 0)

  /** One call: the clock reading in milliseconds and the sixteen random bytes. */
  datatype Call = Call(now: int, random: seq<Byte>) {
    predicate Full() {
      |random| == 16
    }
  }

  function Word(high: int, low: int): int {
    high * 256 + low
  }

  /** The low 11 bits of the two random bytes under the counter: 2048 ids of headroom. */
  function Seed(c: Call): (s: nat)
    requires c.Full()
    ensures s <= 0x07FF
  {
    Word(c.random[6], c.random[7]) % 0x0800
  }

  function NextStep(g: Gen, c: Call): Gen
    requires c.Full()
  {
    if c.now > g.lastMS then Gen(c.now, Seed(c))
    else if g.seqNo + 1 > 0x0FFF then Gen(g.lastMS + 1, Seed(c))
    else Gen(g.lastMS, g.seqNo + 1)
  }

  // ---------- the bytes of an id ----------

  /** The n low bytes of v, most significant first. */
  function BigEndian(n: nat, v: nat): (s: seq<Byte>)
    ensures |s| == n
  {
    if n == 0 then [] else BigEndian(n - 1, v / 256) + [v % 256]
  }

  /** Timestamp, version 7 with the counter, variant 10, and the random rest. */
  function Layout(g: Gen, c: Call): (b: seq<Byte>)
    requires c.Full() && g.seqNo <= 0x0FFF
    ensures |b| == 16
  {
    BigEndian(6, g.lastMS)
    + [0x70 + g.seqNo / 256, g.seqNo % 256, 0x80 + c.random[8] % 64]
    + c.random[9..]
  }

  // ---------- the text of an id ----------

  const HEX := "0123456789abcdef"

  predicate Dash(j: nat) {
    j == 8 || j == 13 || j == 18 || j == 23
  }

  /** The nibble shown at position j. */
  function Nibble(j: nat): int {
    j - (if j > 8 then 1 else 0) - (if j > 13 then 1 else 0) - (if j > 18 then 1 else 0) - (if j > 23 then 1 else 0)
  }

  function Digit(b: Byte, high: bool): char {
    HEX[if high then b / 16 else b % 16]
  }

  function CharAt(b: seq<Byte>, j: nat): char
    requires |b| == 16 && j < 36
  {
    if Dash(j) then '-' else Digit(b[Nibble(j) / 2], Nibble(j) % 2 == 0)
  }

  function Text(b: seq<Byte>): (s: string)
    requires |b| == 16
    ensures |s| == 36
  {
    seq(36, j requires 0 <= j < 36 => CharAt(b, j))
  }

  /** hex.Encode of b[from..to] into out at position at. */
  method HexEncode(out: array<char>, at: nat, b: seq<Byte>, from: nat, to: nat)
    requires from <= to <= |b| == 16 && at + 2 * (to - from) <= 36 == out.Length
    requires forall j | at <= j < at + 2 * (to - from) :: !Dash(j) && Nibble(j) == 2 * from + j - at
    modifies out
    ensures forall j | at <= j < at + 2 * (to - from) :: out[j] == CharAt(b, j)
    ensures forall j | 0 <= j < out.Length && !(at <= j < at + 2 * (to - from)) :: out[j] == old(out[j])
  {
    for i := from to to
      invariant forall j | at <= j < at + 2 * (i - from) :: out[j] == CharAt(b, j)
      invariant forall j | 0 <= j < out.Length && !(at <= j < at + 2 * (i - from)) :: out[j] == old(out[j])
    {
      out[at + 2 * (i - from)] := Digit(b[i], true);
      out[at + 2 * (i - from) + 1] := Digit(b[i], false);
    }
  }

  method FormatUUID(b: seq<Byte>) returns (s: string)
    requires |b| == 16
    ensures s == Text(b)
  {
    var out := new char[36];
    HexEncode(out, 0, b, 0, 4);
    out[8] := '-';
    HexEncode(out, 9, b, 4, 6);
    out[13] := '-';
    HexEncode(out, 14, b, 6, 8);
    out[18] := '-';
    HexEncode(out, 19, b, 8, 10);
    out[23] := '-';
    HexEncode(out, 24, b, 10, 16);
    s := out[..];
  }

  class Generator {
    var lastMS: nat
    var seqNo: nat

    function Value(): Gen
      reads this
    {
      Gen(lastMS, seqNo)
    }

    constructor ()
      ensures Value() == START
    {
      lastMS, seqNo := 0, 0;
    }

    method Next(c: Call) returns (id: string)
      requires c.Full() && seqNo <= 0x0FFF
      modifies this
      ensures Value() == NextStep(old(Value()), c) && seqNo <= 0x0FFF
      ensures id == Text(Layout(Value(), c))
    {
      hide Text, Layout;
      var seed := Word(c.random[6], c.random[7]) % 0x0800;
      if c.now > lastMS {
        lastMS := c.now;
        seqNo := seed;
      } else {
        seqNo := seqNo + 1;
        if seqNo > 0x0FFF {
          lastMS := lastMS + 1;
          seqNo := seed;
        }
      }
      var ts := lastMS;
      var b: seq<Byte> :=
        [(ts / 0x100_0000_0000) % 256, (ts / 0x1_0000_0000) % 256, (ts / 0x100_0000) % 256,
         (ts / 0x1_0000) % 256, (ts / 0x100) % 256, ts % 256,
         0x70 + seqNo / 256, seqNo % 256, c.random[8] % 64 + 0x80] + c.random[9..];
      LayoutBytes(Value(), c);
      id := FormatUUID(b);
    }
  }

  lemma LayoutBytes(g: Gen, c: Call)
    requires c.Full() && g.seqNo <= 0x0FFF
    ensures var ts := g.lastMS;
            Layout(g, c)
            == [(ts / 0x100_0000_0000) % 256, (ts / 0x1_0000_0000) % 256, (ts / 0x100_0000) % 256,
                (ts / 0x1_0000) % 256, (ts / 0x100) % 256, ts % 256,
                0x70 + g.seqNo / 256, g.seqNo % 256, c.random[8] % 64 + 0x80] + c.random[9..]
  {
    SixBytes(g.lastMS);
  }

  lemma SixBytes(ts: nat)
    ensures BigEndian(6, ts)
            == [(ts / 0x100_0000_0000) % 256, (ts / 0x1_0000_0000) % 256, (ts / 0x100_0000) % 256,
                (ts / 0x1_0000) % 256, (ts / 0x100) % 256, ts % 256]
  {
    LastThree(3, ts);
    LastThree(0, ts / 0x100_0000);
    Quotients(ts);
  }

  lemma Quotients(ts: nat)
    ensures var high := ts / 0x100_0000;
            high / 0x1_0000 == ts / 0x100_0000_0000 && high / 0x100 == ts / 0x1_0000_0000
  {
  }

  lemma LastThree(n: nat, v: nat)
    ensures BigEndian(n + 3, v)
            == BigEndian(n, v / 0x100_0000) + [(v / 0x1_0000) % 256, (v / 0x100) % 256, v % 256]
  {
    OneByte(n, v / 0x1_0000);
    OneByte(n + 1, v / 0x100);
    OneByte(n + 2, v);
  }

  lemma OneByte(n: nat, v: nat)
    ensures BigEndian(n + 1, v) == BigEndian(n, v / 256) + [v % 256]
  {
  }

  // ---------- what an id carries ----------

  /** The number n bytes spell, most significant first. */
  function Spelled(b: seq<Byte>): nat {
    if b == [] then 0 else 256 * Spelled(b[..|b| - 1]) + b[|b| - 1]
  }

  lemma {:induction false} SpelledBack(n: nat, v: nat)
    requires v < Pow256(n)
    ensures Spelled(BigEndian(n, v)) == v
  {
    if n > 0 {
      SpelledBack(n - 1, v / 256);
      assert BigEndian(n, v)[..n - 1] == BigEndian(n - 1, v / 256);
    }
  }

  /** An id carries its timestamp, version 7, its counter, variant 10, and 62 bits that come from the
      random input unchanged; a counter that starts again starts from 11 random bits. */
  lemma IdCarries(g: Gen, c: Call)
    requires c.Full() && g.seqNo <= 0x0FFF && g.lastMS < Pow256(6)
    ensures var b := Layout(g, c);
            && Spelled(b[..6]) == g.lastMS
            && b[6] / 16 == 7 && (b[6] as int % 16) * 256 + b[7] as int == g.seqNo
            && b[8] / 64 == 2 && b[8] % 64 == c.random[8] % 64 && b[9..] == c.random[9..]
    ensures var n := NextStep(g, c);
            n.lastMS != g.lastMS ==> n.seqNo == (c.random[6] as int * 256 + c.random[7] as int) % 2048
  {
    SpelledBack(6, g.lastMS);
    assert Layout(g, c)[..6] == BigEndian(6, g.lastMS);
  }

  // ---------- string order ----------

  /** Strictly smaller at the first difference. */
  ghost predicate Below<T(!new)>(a: seq<T>, b: seq<T>, less: (T, T) -> bool, k: nat) {
    k < |a| && k < |b| && a[..k] == b[..k] && less(a[k], b[k])
  }

  predicate ByteLess(x: Byte, y: Byte) {
    x < y
  }

  predicate CharLess(x: char, y: char) {
    x < y
  }

  ghost predicate TextLess(a: string, b: string) {
    exists k: nat :: Below(a, b, CharLess, k)
  }

  function Pow256(n: nat): nat {
    if n == 0 then 1 else 256 * Pow256(n - 1)
  }

  lemma {:induction false} BigEndianOrder(n: nat, u: nat, v: nat) returns (k: nat)
    requires u < v < Pow256(n)
    ensures k < n && Below(BigEndian(n, u), BigEndian(n, v), ByteLess, k)
  {
    if u / 256 < v / 256 {
      k := BigEndianOrder(n - 1, u / 256, v / 256);
      assert BigEndian(n, u)[..k] == BigEndian(n - 1, u / 256)[..k];
      assert BigEndian(n, v)[..k] == BigEndian(n - 1, v / 256)[..k];
    } else {
      k := n - 1;
      assert BigEndian(n, u)[..k] == BigEndian(n - 1, u / 256);
      assert BigEndian(n, v)[..k] == BigEndian(n - 1, v / 256);
    }
  }

  /** Where the text shows byte k. */
  function Position(k: nat): nat {
    2 * k + (if k >= 4 then 1 else 0) + (if k >= 6 then 1 else 0)
    + (if k >= 8 then 1 else 0) + (if k >= 10 then 1 else 0)
  }

  lemma NibbleAt(k: nat, j: nat)
    requires k < 16 && j < Position(k) && !Dash(j)
    ensures 0 <= Nibble(j) / 2 < k
  {
  }

  /** Equal bytes show as equal text. */
  lemma SamePrefix(a: seq<Byte>, b: seq<Byte>, k: nat)
    requires |a| == |b| == 16 && k < 16 && a[..k] == b[..k]
    ensures Text(a)[..Position(k)] == Text(b)[..Position(k)]
  {
    forall j | 0 <= j < Position(k) ensures CharAt(a, j) == CharAt(b, j) {
      if !Dash(j) {
        NibbleAt(k, j);
        assert a[..k][Nibble(j) / 2] == b[..k][Nibble(j) / 2];
      }
    }
    forall j | 0 <= j < Position(k) ensures Text(a)[j] == Text(b)[j] {
    }
  }

  lemma DigitsAt(a: seq<Byte>, k: nat)
    requires |a| == 16 && k < 16
    ensures Position(k) + 1 < 36
    ensures Text(a)[Position(k)] == Digit(a[k], true) && Text(a)[Position(k) + 1] == Digit(a[k], false)
  {
  }

  lemma FirstDigitOrder(a: seq<Byte>, b: seq<Byte>, k: nat)
    requires |a| == |b| == 16 && k < 16
    requires Text(a)[..Position(k)] == Text(b)[..Position(k)] && a[k] / 16 < b[k] / 16
    ensures TextLess(Text(a), Text(b))
  {
    DigitsAt(a, k);
    DigitsAt(b, k);
    assert Below(Text(a), Text(b), CharLess, Position(k));
  }

  lemma OneFurther(s: string, t: string, p: nat)
    requires p < |s| && p < |t| && s[..p] == t[..p] && s[p] == t[p]
    ensures s[..p + 1] == t[..p + 1]
  {
    assert s[..p + 1] == s[..p] + [s[p]] && t[..p + 1] == t[..p] + [t[p]];
  }

  lemma SecondDigitOrder(a: seq<Byte>, b: seq<Byte>, k: nat)
    requires |a| == |b| == 16 && k < 16
    requires Text(a)[..Position(k)] == Text(b)[..Position(k)]
    requires a[k] / 16 == b[k] / 16 && a[k] % 16 < b[k] % 16
    ensures TextLess(Text(a), Text(b))
  {
    DigitsAt(a, k);
    DigitsAt(b, k);
    OneFurther(Text(a), Text(b), Position(k));
    assert Below(Text(a), Text(b), CharLess, Position(k) + 1);
  }

  /** Byte order is text order. */
  lemma TextOrder(a: seq<Byte>, b: seq<Byte>, k: nat)
    requires |a| == |b| == 16 && Below(a, b, ByteLess, k)
    ensures TextLess(Text(a), Text(b))
  {
    SamePrefix(a, b, k);
    if a[k] / 16 < b[k] / 16 {
      FirstDigitOrder(a, b, k);
    } else {
      SecondDigitOrder(a, b, k);
    }
  }

  // ---------- every run of one generator ----------

  function After(calls: seq<Call>): (g: Gen)
    requires forall i | 0 <= i < |calls| :: calls[i].Full()
    ensures g.seqNo <= 0x0FFF
  {
    if calls == [] then START else NextStep(After(calls[..|calls| - 1]), calls[|calls| - 1])
  }

  /** The id of the i-th call. */
  function Id(calls: seq<Call>, i: nat): string
    requires i < |calls| && forall k | 0 <= k < |calls| :: calls[k].Full()
  {
    Text(Layout(After(calls[..i + 1]), calls[i]))
  }

  function Key(g: Gen): nat {
    g.lastMS * 0x1000 + g.seqNo
  }

  lemma {:induction false} KeysIncrease(calls: seq<Call>, i: nat)
    requires forall k | 0 <= k < |calls| :: calls[k].Full()
    requires i < |calls|
    ensures Key(After(calls[..i])) < Key(After(calls)) && After(calls[..i]).lastMS <= After(calls).lastMS
  {
    var n := |calls| - 1;
    if i < n {
      KeysIncrease(calls[..n], i);
      assert calls[..n][..i] == calls[..i];
    }
  }

  lemma LayoutOrder(g: Gen, c: Call, h: Gen, d: Call)
    requires c.Full() && d.Full() && g.seqNo <= 0x0FFF && h.seqNo <= 0x0FFF
    requires Key(g) < Key(h) && h.lastMS < 0x1_0000_0000_0000
    ensures TextLess(Text(Layout(g, c)), Text(Layout(h, d)))
  {
    var a, b := Layout(g, c), Layout(h, d);
    if g.lastMS < h.lastMS {
      assert Pow256(6) == 0x1_0000_0000_0000 by {
        assert Pow256(3) == 0x100_0000;
      }
      var k := BigEndianOrder(6, g.lastMS, h.lastMS);
      assert a[..k] == BigEndian(6, g.lastMS)[..k] && b[..k] == BigEndian(6, h.lastMS)[..k];
      TextOrder(a, b, k);
    } else {
      assert a[..6] == b[..6];
      if g.seqNo / 256 < h.seqNo / 256 {
        TextOrder(a, b, 6);
      } else {
        assert a[..7] == b[..7];
        TextOrder(a, b, 7);
      }
    }
  }

  lemma KeysBetween(calls: seq<Call>, i: nat, j: nat)
    requires forall k | 0 <= k < |calls| :: calls[k].Full()
    requires i < j <= |calls|
    ensures Key(After(calls[..i])) < Key(After(calls[..j])) && After(calls[..j]).lastMS <= After(calls).lastMS
  {
    assert calls[..j][..i] == calls[..i];
    KeysIncrease(calls[..j], i);
    if j < |calls| {
      KeysIncrease(calls, j);
    } else {
      assert calls[..j] == calls;
    }
  }

  lemma StatesOf(calls: seq<Call>, i: nat, j: nat) returns (g: Gen, h: Gen)
    requires forall k | 0 <= k < |calls| :: calls[k].Full()
    requires i < j < |calls|
    ensures g == After(calls[..i + 1]) && h == After(calls[..j + 1])
    ensures Key(g) < Key(h) && h.lastMS <= After(calls).lastMS
  {
    g, h := After(calls[..i + 1]), After(calls[..j + 1]);
    KeysBetween(calls, i + 1, j + 1);
  }

  /** For every clock, frozen, jumping or rolled back, and every random input: ids of one generator
      are strictly increasing as strings, as long as milliseconds fit 48 bits. */
  lemma IdsStrictlyIncrease(calls: seq<Call>, i: nat, j: nat)
    requires forall k | 0 <= k < |calls| :: calls[k].Full()
    requires i < j < |calls| && After(calls).lastMS < 0x1_0000_0000_0000
    ensures TextLess(Id(calls, i), Id(calls, j))
  {
    var g, h := StatesOf(calls, i, j);
    LayoutOrder(g, calls[i], h, calls[j]);
  }

  /** Every id is 36 characters with dashes in place, version 7 and variant 10 (binary). */
  lemma IdShape(calls: seq<Call>, i: nat)
    requires i < |calls| && forall k | 0 <= k < |calls| :: calls[k].Full()
    ensures var s := Id(calls, i);
            && |s| == 36 && s[8] == s[13] == s[18] == s[23] == '-'
            && s[14] == '7' && s[19] in "89ab"
  {
    var b := Layout(After(calls[..i + 1]), calls[i]);
    assert Nibble(14) == 12 && Nibble(19) == 16;
    assert b[6] / 16 == 7 && 8 <= b[8] / 16 <= 11;
  }

  // ---------- drift ----------

  function MaxReading(calls: seq<Call>): nat {
    if calls == [] then 0
    else
      var before := MaxReading(calls[..|calls| - 1]);
      var now := calls[|calls| - 1].now;
      if now > before then now else before
  }

  /** Calls since the clock last moved past the generator. */
  function Frozen(calls: seq<Call>): nat
    requires forall i | 0 <= i < |calls| :: calls[i].Full()
  {
    if calls == [] then 0
    else
      var n := |calls| - 1;
      if calls[n].now > After(calls[..n]).lastMS then 0 else Frozen(calls[..n]) + 1
  }

  /** The counter value the current millisecond started with. */
  ghost function LastSeed(calls: seq<Call>): (s: nat)
    requires forall i | 0 <= i < |calls| :: calls[i].Full()
    ensures s <= 0x07FF && s <= After(calls).seqNo
  {
    if calls == [] then 0
    else
      var n := |calls| - 1;
      if After(calls).lastMS != After(calls[..n]).lastMS then Seed(calls[n]) else LastSeed(calls[..n])
  }

  lemma {:induction false} DriftAccount(calls: seq<Call>)
    requires forall i | 0 <= i < |calls| :: calls[i].Full()
    ensures MaxReading(calls) <= After(calls).lastMS
    ensures 2049 * (After(calls).lastMS - MaxReading(calls)) + After(calls).seqNo - LastSeed(calls) <= Frozen(calls)
  {
    if calls != [] {
      DriftAccount(calls[..|calls| - 1]);
    }
  }

  /** The generator is never behind the clock, and it runs ahead of the largest reading by at most
      one millisecond per 2049 ids made since the clock last advanced. */
  lemma DriftBound(calls: seq<Call>)
    requires forall i | 0 <= i < |calls| :: calls[i].Full()
    ensures MaxReading(calls) <= After(calls).lastMS <= MaxReading(calls) + Frozen(calls) / 2049
  {
    DriftAccount(calls);
  }
}
