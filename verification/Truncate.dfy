/** Bounded header text (TruncateHeader and runeBoundary in dlq.go): UTF-8 bytes, replaced where
    invalid, cleaned of control characters, cut between runes. */
module Truncate {

  type Byte = b: int | 0 <= b < 256
  type Text = seq<Byte>

  predicate Tail(b: Byte) {
    0x80 <= b <= 0xBF
  }

  /** The length of the well-formed UTF-8 sequence s starts with (RFC 3629 section 4), 0 when there
      is none. */
  function RuneLen(s: Text): (n: nat)
    ensures n <= 4 && n <= |s|
  {
    if s == [] then 0
    else
      var b := s[0];
      if b <= 0x7F then 1
      else if 0xC2 <= b <= 0xDF then if |s| >= 2 && Tail(s[1]) then 2 else 0
      else if 0xE0 <= b <= 0xEF then
        if |s| >= 3 && Tail(s[1]) && Tail(s[2])
           && (b == 0xE0 ==> s[1] >= 0xA0) && (b == 0xED ==> s[1] <= 0x9F) then 3 else 0
      else if 0xF0 <= b <= 0xF4 then
        if |s| >= 4 && Tail(s[1]) && Tail(s[2]) && Tail(s[3])
           && (b == 0xF0 ==> s[1] >= 0x90) && (b == 0xF4 ==> s[1] <= 0x8F) then 4 else 0
      else 0
  }

  predicate ValidUtf8(s: Text) {
    s == [] || (RuneLen(s) > 0 && ValidUtf8(s[RuneLen(s)..]))
  }

  /** The rune at the start is a control character: U+0000-1F, U+007F or U+0080-9F. */
  predicate ControlHead(s: Text)
    requires s != []
  {
    s[0] < 0x20 || s[0] == 0x7F || (s[0] == 0xC2 && |s| >= 2 && 0x80 <= s[1] <= 0x9F)
  }

  /** Valid UTF-8 without control characters. */
  predicate Printable(s: Text) {
    s == [] || (RuneLen(s) > 0 && !ControlHead(s) && Printable(s[RuneLen(s)..]))
  }

  /** U+FFFD */
  const REPLACEMENT: Text := [0xEF, 0xBF, 0xBD]

  /** strings.ToValidUTF8: one replacement for each run of invalid bytes. */
  function ToValid(s: Text, inRun: bool): Text {
    if s == [] then []
    else if RuneLen(s) > 0 then s[..RuneLen(s)] + ToValid(s[RuneLen(s)..], false)
    else (if inRun then [] else REPLACEMENT) + ToValid(s[1..], true)
  }

  /** strings.Map with every control character turned into a space. */
  function Spaced(s: Text): Text {
    if s == [] then []
    else if RuneLen(s) == 0 then REPLACEMENT + Spaced(s[1..])
    else (if ControlHead(s) then [0x20] else s[..RuneLen(s)]) + Spaced(s[RuneLen(s)..])
  }

  function Sanitized(s: Text): Text {
    Spaced(ToValid(s, false))
  }

  /** The marker text: an ellipsis (U+2026) and "[truncated]". */
  const MARKER: Text :=
    [0xE2, 0x80, 0xA6, 0x5B, 0x74, 0x72, 0x75, 0x6E, 0x63, 0x61, 0x74, 0x65, 0x64, 0x5D]

  predicate RuneStart(b: Byte) {
    !Tail(b)
  }

  function Boundary(s: Text, n: nat): (k: nat)
    ensures k <= n
  {
    if n > 0 && n < |s| && !RuneStart(s[n]) then Boundary(s, n - 1) else n
  }

  method RuneBoundary(s: Text, max: nat) returns (n: nat)
    ensures n == Boundary(s, max)
  {
    n := max;
    while n > 0 && n < |s| && !RuneStart(s[n])
      invariant Boundary(s, n) == Boundary(s, max)
    {
      n := n - 1;
    }
  }

  function TruncateHeader(s: Text, max: int): Text {
    if max <= 0 then [] else Cut(Sanitized(s), max)
  }

  /** The length limit, on text that is clean already. */
  function Cut(t: Text, max: nat): Text {
    if |t| <= max then t else t[..Boundary(t, Room(max))] + Ending(max)
  }

  /** What a shortened value ends with: nothing when the marker would fill it. */
  function Ending(max: nat): Text {
    if max <= |MARKER| then [] else MARKER
  }

  function Room(max: nat): (n: nat)
    ensures n + |Ending(max)| == max
  {
    if max <= |MARKER| then max else max - |MARKER|
  }

  // ---------- what a rune is ----------

  /** A Unicode scalar value: a code point outside the surrogates. */
  predicate Scalar(c: nat) {
    c < 0xD800 || 0xE000 <= c <= 0x10FFFF
  }

  /** The UTF-8 encoding of a scalar value (RFC 3629 section 3). */
  function Encoded(c: nat): (t: Text)
    requires Scalar(c)
    ensures 1 <= |t| <= 4
  {
    if c < 0x80 then [c]
    else if c < 0x800 then [0xC0 + c / 64, 0x80 + c % 64]
    else if c < 0x10000 then [0xE0 + c / 4096, 0x80 + c / 64 % 64, 0x80 + c % 64]
    else [0xF0 + c / 262144, 0x80 + c / 4096 % 64, 0x80 + c / 64 % 64, 0x80 + c % 64]
  }

  /** The encoding of c is read as one rune, a control character exactly when c is one. */
  predicate ReadAs(s: Text, c: nat)
    requires Scalar(c) && Encoded(c) <= s
  {
    RuneLen(s) == |Encoded(c)| && (ControlHead(s) <==> c <= 0x1F || 0x7F <= c <= 0x9F)
  }

  lemma ShortIsRead(c: nat, s: Text)
    requires Scalar(c) && c < 0x800 && Encoded(c) <= s
    ensures ReadAs(s, c)
  {
    var t := Encoded(c);
    assert forall i | 0 <= i < |t| :: s[i] == t[i];
  }

  lemma ThreeIsRead(c: nat, s: Text)
    requires Scalar(c) && 0x800 <= c < 0x10000 && Encoded(c) <= s
    ensures ReadAs(s, c)
  {
    var t := Encoded(c);
    assert s[0] == t[0] && s[1] == t[1] && s[2] == t[2];
  }

  lemma FourIsRead(c: nat, s: Text)
    requires Scalar(c) && 0x10000 <= c && Encoded(c) <= s
    ensures ReadAs(s, c)
  {
    var t := Encoded(c);
    assert s[0] == t[0] && s[1] == t[1] && s[2] == t[2] && s[3] == t[3];
  }

  /** The encoding of a scalar value is read as one rune, a control character exactly when the value is. */
  lemma EncodedIsRead(c: nat, s: Text)
    requires Scalar(c) && Encoded(c) <= s
    ensures ReadAs(s, c)
  {
    hide Encoded, ReadAs;
    if c < 0x800 {
      ShortIsRead(c, s);
    } else if c < 0x10000 {
      ThreeIsRead(c, s);
    } else {
      FourIsRead(c, s);
    }
  }

  lemma Low6(q: nat, r: nat)
    requires r < 64
    ensures (64 * q + r) / 64 == q && (64 * q + r) % 64 == r
  {
  }

  lemma Low12(q: nat, r: nat)
    requires r < 4096
    ensures (4096 * q + r) / 4096 == q
  {
  }

  lemma Low18(q: nat, r: nat)
    requires r < 262144
    ensures (262144 * q + r) / 262144 == q
  {
  }

  /** The value of four groups of six bits, and the groups again. */
  lemma Groups(h: nat, x: nat, y: nat, z: nat) returns (c: nat)
    requires x < 64 && y < 64 && z < 64
    ensures c == 262144 * h + 4096 * x + 64 * y + z
    ensures c / 262144 == h && c / 4096 % 64 == x && c / 64 % 64 == y && c % 64 == z
    ensures h == 0 ==> c / 4096 == x
    ensures h == 0 && x == 0 ==> c / 64 == y
  {
    var a := 64 * h + x;
    var b := 64 * a + y;
    c := 64 * b + z;
    Low6(h, x);
    Low6(a, y);
    Low6(b, z);
    Low12(a, 64 * y + z);
    Low18(h, 4096 * x + 64 * y + z);
    assert c == 4096 * a + (64 * y + z);
    assert c == 262144 * h + (4096 * x + 64 * y + z);
  }

  lemma ShortIsEncoded(s: Text) returns (c: nat)
    requires 0 < RuneLen(s) <= 2
    ensures Scalar(c) && s[..RuneLen(s)] == Encoded(c)
  {
    if RuneLen(s) == 1 {
      c := s[0];
    } else {
      c := Groups(0, 0, s[0] - 0xC0, s[1] - 0x80);
    }
  }

  lemma ThreeIsEncoded(s: Text) returns (c: nat)
    requires RuneLen(s) == 3
    ensures Scalar(c) && s[..3] == Encoded(c)
  {
    c := Groups(0, s[0] - 0xE0, s[1] - 0x80, s[2] - 0x80);
  }

  lemma FourIsEncoded(s: Text) returns (c: nat)
    requires RuneLen(s) == 4
    ensures Scalar(c) && s[..4] == Encoded(c)
  {
    c := Groups(s[0] - 0xF0, s[1] - 0x80, s[2] - 0x80, s[3] - 0x80);
  }

  /** What is read as a rune is the encoding of a scalar value. */
  lemma ReadIsEncoded(s: Text) returns (c: nat)
    requires RuneLen(s) > 0
    ensures Scalar(c) && s[..RuneLen(s)] == Encoded(c)
  {
    hide Encoded;
    if RuneLen(s) == 3 {
      c := ThreeIsEncoded(s);
    } else if RuneLen(s) == 4 {
      c := FourIsEncoded(s);
    } else {
      c := ShortIsEncoded(s);
    }
  }

  /** A rune is read if and only if the text begins with the encoding of a scalar value, and then that
      encoding is what is read. */
  lemma RunesExactly(s: Text)
    ensures RuneLen(s) > 0 <==> exists c: nat | Scalar(c) :: Encoded(c) <= s
    ensures forall c: nat | Scalar(c) && Encoded(c) <= s :: ReadAs(s, c)
  {
    hide RuneLen, ControlHead, Encoded;
    if RuneLen(s) > 0 {
      var c := ReadIsEncoded(s);
      assert Encoded(c) <= s;
    }
    forall c: nat | Scalar(c) && Encoded(c) <= s
      ensures ReadAs(s, c)
    {
      EncodedIsRead(c, s);
    }
  }

  // ---------- concatenation and cuts ----------

  /** More bytes after a complete rune do not change it. */
  lemma RuneLenPrefix(a: Text, b: Text)
    requires RuneLen(a) > 0
    ensures RuneLen(a + b) == RuneLen(a)
  {
    forall i | 0 <= i < |a| ensures (a + b)[i] == a[i] {
    }
  }

  lemma {:induction false} PrintableConcat(a: Text, b: Text)
    requires Printable(a) && Printable(b)
    ensures Printable(a + b)
  {
    if a == [] {
      assert a + b == b;
    } else {
      var n := RuneLen(a);
      RuneLenPrefix(a, b);
      assert (a + b)[n..] == a[n..] + b;
      PrintableConcat(a[n..], b);
    }
  }

  lemma {:induction false} PrintableIsValid(s: Text)
    requires Printable(s)
    ensures ValidUtf8(s)
  {
    if s != [] {
      PrintableIsValid(s[RuneLen(s)..]);
    }
  }

  /** A rune is one start byte and tail bytes, and no proper prefix of it is well formed. */
  lemma RuneParts(s: Text, m: nat)
    requires RuneLen(s) > 0 && 0 < m < RuneLen(s)
    ensures RuneStart(s[0]) && !RuneStart(s[m]) && RuneLen(s[..m]) == 0
  {
  }

  lemma CutTwice(s: Text, n: nat, k: nat)
    requires n <= k <= |s|
    ensures s[..k] == s[..n] + s[..k][n..] && s[..k][n..] == s[n..][..k - n]
  {
  }

  /** In well-formed text the cut points are exactly the start bytes: a cut at k leaves well-formed
      text on the left if and only if k is an end or s[k] starts a rune. */
  lemma {:induction false} CutPoints(s: Text, k: nat)
    requires Printable(s) && k <= |s|
    ensures Printable(s[..k]) <==> (k == 0 || k == |s| || RuneStart(s[k]))
  {
    if s == [] || k == 0 {
      assert s[..k] == [];
    } else {
      var n := RuneLen(s);
      if k < n {
        RuneParts(s, k);
      } else {
        RuneLenOfOwnPrefix(s);
        CutTwice(s, n, k);
        RuneLenPrefix(s[..n], s[..k][n..]);
        CutPoints(s[n..], k - n);
        if n < |s| && k == n {
          assert RuneLen(s[n..]) > 0 && s[n..][0] == s[n];
        }
      }
    }
  }

  /** runeBoundary finds the largest cut point at or below n. */
  lemma {:induction false} BoundaryIsLargestCut(s: Text, n: nat)
    requires Printable(s) && n <= |s|
    ensures Boundary(s, n) <= n && Printable(s[..Boundary(s, n)])
    ensures forall m | Boundary(s, n) < m <= n :: !Printable(s[..m])
  {
    CutPoints(s, n);
    if n > 0 && n < |s| && !RuneStart(s[n]) {
      BoundaryIsLargestCut(s, n - 1);
    }
  }

  // ---------- sanitizing ----------

  lemma {:induction false} ToValidIsValid(s: Text, inRun: bool)
    ensures ValidUtf8(ToValid(s, inRun))
  {
    if s != [] {
      var n := RuneLen(s);
      if n > 0 {
        ToValidIsValid(s[n..], false);
        RuneLenOfOwnPrefix(s);
        RuneLenPrefix(s[..n], ToValid(s[n..], false));
        assert ToValid(s, inRun)[n..] == ToValid(s[n..], false);
      } else {
        ToValidIsValid(s[1..], true);
        if !inRun {
          assert RuneLen(REPLACEMENT) == 3;
          RuneLenPrefix(REPLACEMENT, ToValid(s[1..], true));
          assert ToValid(s, inRun)[3..] == ToValid(s[1..], true);
        } else {
          assert ToValid(s, inRun) == ToValid(s[1..], true);
        }
      }
    }
  }

  lemma RuneLenOfOwnPrefix(s: Text)
    requires RuneLen(s) > 0
    ensures RuneLen(s[..RuneLen(s)]) == RuneLen(s)
  {
  }

  lemma {:induction false} SpacedIsPrintable(s: Text)
    requires ValidUtf8(s)
    ensures Printable(Spaced(s))
  {
    if s != [] {
      var n := RuneLen(s);
      SpacedIsPrintable(s[n..]);
      var head := if ControlHead(s) then [0x20] else s[..n];
      RuneLenOfOwnPrefix(s);
      assert head[RuneLen(head)..] == [];
      assert Printable(head);
      PrintableConcat(head, Spaced(s[n..]));
    }
  }

  /** Text that is already printable is left alone. */
  lemma {:induction false} PrintableIsKept(s: Text)
    requires Printable(s)
    ensures ToValid(s, false) == s && Spaced(s) == s
  {
    hide RuneLen;
    if s != [] {
      PrintableIsKept(s[RuneLen(s)..]);
    }
  }

  lemma FirstOfPrintable(s: Text)
    requires Printable(s) && s != []
    ensures RuneLen(s) > 0 && !ControlHead(s) && Printable(s[RuneLen(s)..])
  {
  }

  lemma FirstOfBoth(s: Text, t: Text, n: nat)
    requires n <= |s|
    ensures (s + t)[..n] == s[..n] && (s + t)[n..] == s[n..] + t
  {
  }

  lemma {:induction false} ToValidPrefix(p: Text, s: Text)
    requires Printable(p)
    ensures ToValid(p + s, false) == p + ToValid(s, false)
  {
    hide Printable, RuneLen;
    if p == [] {
      assert p + s == s;
    } else {
      var n := RuneLen(p);
      FirstOfPrintable(p);
      RuneLenPrefix(p, s);
      FirstOfBoth(p, s, n);
      ToValidPrefix(p[n..], s);
      assert p == p[..n] + p[n..];
    }
  }

  lemma {:induction false} SpacedPrefix(p: Text, s: Text)
    requires Printable(p)
    ensures Spaced(p + s) == p + Spaced(s)
  {
    hide Printable, RuneLen, ControlHead;
    if p == [] {
      assert p + s == s;
    } else {
      var n := RuneLen(p);
      FirstOfPrintable(p);
      RuneLenPrefix(p, s);
      FirstOfBoth(p, s, n);
      SameHead(p, s);
      SpacedPrefix(p[n..], s);
      assert p == p[..n] + p[n..];
    }
  }

  lemma SameHead(p: Text, s: Text)
    requires RuneLen(p) > 0
    ensures ControlHead(p + s) == ControlHead(p)
  {
  }

  /** No well-formed sequence starts anywhere in x, nor goes on behind it. */
  ghost predicate Garbage(x: Text, s: Text) {
    forall k | 0 <= k < |x| :: RuneLen((x + s)[k..]) == 0
  }

  lemma {:induction false} GarbageGone(x: Text, s: Text)
    requires Garbage(x, s) && (s == [] || RuneLen(s) > 0)
    ensures ToValid(x + s, true) == ToValid(s, false)
  {
    hide RuneLen;
    if x == [] {
      assert x + s == s;
    } else {
      assert (x + s)[0..] == x + s && (x + s)[1..] == x[1..] + s;
      forall k | 0 <= k < |x[1..]| ensures RuneLen((x[1..] + s)[k..]) == 0 {
        assert (x[1..] + s)[k..] == (x + s)[k + 1..];
      }
      GarbageGone(x[1..], s);
    }
  }

  /** What cleaning does and nothing else: behind clean text, one U+FFFD stands for a whole run of
      invalid bytes, and one space for a control character. */
  lemma CleansExactly(p: Text, x: Text, s: Text)
    requires Printable(p)
    ensures Sanitized(p + s) == p + Sanitized(s)
    ensures x != [] && Garbage(x, s) && (s == [] || RuneLen(s) > 0) ==>
              Sanitized(p + (x + s)) == p + REPLACEMENT + Sanitized(s)
    ensures RuneLen(x) == |x| > 0 && ControlHead(x) ==> Sanitized(p + (x + s)) == p + [0x20] + Sanitized(s)
  {
    hide RuneLen, ControlHead, Garbage, Printable;
    CleansPrefix(p, s);
    CleansPrefix(p, x + s);
    if x != [] && Garbage(x, s) && (s == [] || RuneLen(s) > 0) {
      GarbageCleaned(x, s);
    }
    if RuneLen(x) == |x| > 0 && ControlHead(x) {
      ControlCleaned(x, s);
    }
  }

  lemma CleansPrefix(p: Text, s: Text)
    requires Printable(p)
    ensures Sanitized(p + s) == p + Sanitized(s)
  {
    ToValidPrefix(p, s);
    SpacedPrefix(p, ToValid(s, false));
  }

  lemma GarbageCleaned(x: Text, s: Text)
    requires x != [] && Garbage(x, s) && (s == [] || RuneLen(s) > 0)
    ensures Sanitized(x + s) == REPLACEMENT + Sanitized(s)
  {
    assert (x + s)[0..] == x + s && (x + s)[1..] == x[1..] + s;
    forall k | 0 <= k < |x[1..]| ensures RuneLen((x[1..] + s)[k..]) == 0 {
      assert (x[1..] + s)[k..] == (x + s)[k + 1..];
    }
    GarbageGone(x[1..], s);
    ReplacementIsPrintable();
    SpacedPrefix(REPLACEMENT, ToValid(s, false));
  }

  lemma ReplacementIsPrintable()
    ensures Printable(REPLACEMENT)
  {
    assert REPLACEMENT[3..] == [];
  }

  lemma ControlCleaned(x: Text, s: Text)
    requires RuneLen(x) == |x| > 0 && ControlHead(x)
    ensures Sanitized(x + s) == [0x20] + Sanitized(s)
  {
    hide RuneLen, ControlHead;
    var v := ToValid(s, false);
    RuneLenPrefix(x, s);
    FirstOfBoth(x, s, |x|);
    RuneLenPrefix(x, v);
    FirstOfBoth(x, v, |x|);
    SameHead(x, v);
  }

  // ---------- TruncateHeader ----------

  lemma MarkerIsPrintable()
    ensures Printable(MARKER) && |MARKER| == 14
  {
    assert RuneLen(MARKER) == 3;
    AsciiIsPrintable(MARKER[3..]);
  }

  lemma {:induction false} AsciiIsPrintable(s: Text)
    requires forall i | 0 <= i < |s| :: 0x20 <= s[i] < 0x7F
    ensures Printable(s)
  {
    if s != [] {
      AsciiIsPrintable(s[1..]);
    }
  }

  lemma SanitizedIsPrintable(s: Text)
    ensures Printable(Sanitized(s))
  {
    ToValidIsValid(s, false);
    SpacedIsPrintable(ToValid(s, false));
  }

  lemma CutIsPrintable(t: Text, n: nat, end: Text)
    requires Printable(t) && Printable(end) && n <= |t|
    ensures Printable(t[..Boundary(t, n)] + end) && |t[..Boundary(t, n)] + end| <= n + |end|
  {
    BoundaryIsLargestCut(t, n);
    PrintableConcat(t[..Boundary(t, n)], end);
  }

  lemma EndingIsPrintable(max: nat)
    ensures Printable(Ending(max))
  {
    MarkerIsPrintable();
  }

  lemma CutFits(t: Text, max: nat)
    requires Printable(t)
    ensures Printable(Cut(t, max)) && |Cut(t, max)| <= max
  {
    if max < |t| {
      EndingIsPrintable(max);
      CutIsPrintable(t, Room(max), Ending(max));
    }
  }

  /** The result is at most max bytes of valid UTF-8 without control characters, so no rune is
      ever split. */
  lemma BoundedAndPrintable(s: Text, max: int)
    ensures var r := TruncateHeader(s, max);
            Printable(r) && ValidUtf8(r) && (|r| <= max || r == [])
  {
    if max > 0 {
      SanitizedIsPrintable(s);
      CutFits(Sanitized(s), max);
    }
    PrintableIsValid(TruncateHeader(s, max));
  }

  /** A value is left unchanged exactly when it is already printable and short enough. */
  lemma UnchangedExactly(s: Text, max: int)
    requires max > 0
    ensures TruncateHeader(s, max) == s <==> Printable(s) && |s| <= max
  {
    BoundedAndPrintable(s, max);
    if Printable(s) {
      PrintableIsKept(s);
    }
  }

  /** Truncating twice at the same limit is truncating once. */
  lemma Idempotent(s: Text, max: int)
    ensures TruncateHeader(TruncateHeader(s, max), max) == TruncateHeader(s, max)
  {
    if max > 0 {
      BoundedAndPrintable(s, max);
      UnchangedExactly(TruncateHeader(s, max), max);
    }
  }

  /** A shortened value ends with the marker when there is room for it, and in every case keeps the
      longest prefix of whole runes that fits. */
  lemma ShortenedKeepsTheMost(s: Text, max: int)
    requires 0 < max < |Sanitized(s)|
    ensures var t := Sanitized(s);
            var room := if max > |MARKER| then max - |MARKER| else max;
            exists k: nat ::
              && k <= room && Printable(t[..k])
              && TruncateHeader(s, max) == t[..k] + (if max > |MARKER| then MARKER else [])
              && forall m | k < m <= room :: !Printable(t[..m])
  {
    SanitizedIsPrintable(s);
    BoundaryIsLargestCut(Sanitized(s), Room(max));
  }
}
