/** The token bucket of the rate limiter (the Lua script in redis/rate-limit.go), in exact
    arithmetic: refill, cap, spend, and a key that expires one period after its last use. */
module RateLimit {
  import opened Base

  datatype Limits = Limits(rate: int, period: int, burst: int) {
    /** What a meaningful configuration has. */
    predicate Usable() {
      period > 0 && rate >= 0 && burst >= 0
    }
  }

  /** The stored hash. */
  datatype Bucket = Bucket(tokens: real, ts: int)

  function Min(a: real, b: real): real {
    if a <= b then a else b
  }

  /** The tokens delta milliseconds are worth. */
  function Refill(l: Limits, delta: int): real
    requires l.period != 0
  {
    (delta * l.rate) as real / l.period as real
  }

  /** The tokens a call at time now finds: a missing key is a full bucket. */
  function Available(l: Limits, key: Option<Bucket>, now: int): real
    requires l.period != 0
  {
    var tokens := if key.None? then l.burst as real else key.value.tokens;
    var ts := if key.None? then now else key.value.ts;
    var delta := if now - ts < 0 then 0 else now - ts;
    Min(l.burst as real, tokens + Refill(l, delta))
  }

  /** One run of the script: what is stored, and whether the call is allowed. */
  function AllowStep(l: Limits, key: Option<Bucket>, now: int): (Bucket, bool)
    requires l.period != 0
  {
    Spend(Available(l, key, now), now)
  }

  /** Spend one token if there is a whole one. */
  function Spend(tokens: real, now: int): (Bucket, bool) {
    if tokens < 1.0 then (Bucket(tokens, now), false) else (Bucket(tokens - 1.0, now), true)
  }

  /** One key of the store. The server may drop it once its expiry has passed. */
  class Entry {
    var stored: Option<Bucket>
    var expireAt: int

    constructor ()
      ensures stored == None
    {
      stored, expireAt := None, 0;
    }

    method Expire(now: int)
      requires now >= expireAt
      modifies this
      ensures stored == None
    {
      stored := None;
    }

    method Allow(l: Limits, now: int) returns (ok: bool)
      requires l.period != 0
      modifies this
      ensures (stored, ok) == (Some(AllowStep(l, old(stored), now).0), AllowStep(l, old(stored), now).1)
      ensures expireAt == now + l.period
    {
      var tokens, ts: int;
      if stored.None? {
        tokens, ts := l.burst as real, now;
      } else {
        tokens, ts := stored.value.tokens, stored.value.ts;
      }
      var delta := if now - ts > 0 then now - ts else 0;
      var refill := (delta * l.rate) as real / l.period as real;
      tokens := if tokens + refill < l.burst as real then tokens + refill else l.burst as real;
      ok := tokens >= 1.0;
      if ok {
        tokens := tokens - 1.0;
      }
      stored := Some(Bucket(tokens, now));
      expireAt := now + l.period;
    }
  }

  // ---------- runs ----------

  /** A call at time now; dropped says that the server had expired the key just before. */
  datatype Visit = Visit(now: int, dropped: bool)

  function Seen(key: Option<Bucket>, v: Visit): Option<Bucket> {
    if v.dropped then None else key
  }

  /** The key after the visits. */
  function After(l: Limits, visits: seq<Visit>): Option<Bucket>
    requires l.period != 0
  {
    if visits == [] then None
    else
      var n := |visits| - 1;
      Some(AllowStep(l, Seen(After(l, visits[..n]), visits[n]), visits[n].now).0)
  }

  function Answer(l: Limits, visits: seq<Visit>, i: nat): bool
    requires l.period != 0 && i < |visits|
  {
    AllowStep(l, Seen(After(l, visits[..i]), visits[i]), visits[i].now).1
  }

  ghost predicate ClockRuns(visits: seq<Visit>) {
    forall i, j | 0 <= i <= j < |visits| :: visits[i].now <= visits[j].now
  }

  /** A key is dropped only after a whole period without use. */
  ghost predicate Expirable(l: Limits, visits: seq<Visit>) {
    forall i | 0 <= i < |visits| && visits[i].dropped :: i > 0 && visits[i].now >= visits[i - 1].now + l.period
  }

  /** The allowed calls among visits i..j. */
  function Allowed(l: Limits, visits: seq<Visit>, i: nat, j: nat): nat
    requires l.period != 0 && i <= j <= |visits|
    decreases j - i
  {
    if i == j then 0 else Allowed(l, visits, i, j - 1) + (if Answer(l, visits, j - 1) then 1 else 0)
  }

  lemma {:induction false} BucketBounds(l: Limits, visits: seq<Visit>)
    requires l.Usable()
    ensures var k := After(l, visits);
            k.Some? ==> |visits| > 0 && k.value.ts == visits[|visits| - 1].now
                        && 0.0 <= k.value.tokens <= l.burst as real
  {
    if visits != [] {
      var n := |visits| - 1;
      BucketBounds(l, visits[..n]);
      RefillIsNotNegative(l, Seen(After(l, visits[..n]), visits[n]), visits[n].now);
    }
  }

  lemma RefillIsNotNegative(l: Limits, key: Option<Bucket>, now: int)
    requires l.Usable() && (key.Some? ==> key.value.tokens >= 0.0)
    ensures 0.0 <= Available(l, key, now) <= l.burst as real
  {
    var ts := if key.None? then now else key.value.ts;
    var delta := if now - ts < 0 then 0 else now - ts;
    assert delta * l.rate >= 0;
    assert Refill(l, delta) >= 0.0;
  }

  // ---------- the window bound ----------

  lemma RefillAdds(l: Limits, a: int, b: int)
    requires l.period > 0
    ensures Refill(l, a) + Refill(l, b) == Refill(l, a + b)
  {
    assert (a + b) * l.rate == a * l.rate + b * l.rate;
    DivisionAdds((a * l.rate) as real, (b * l.rate) as real, l.period as real);
  }

  lemma DivisionAdds(x: real, y: real, p: real)
    requires p > 0.0
    ensures x / p + y / p == (x + y) / p
  {
  }

  ghost predicate NeverDropped(visits: seq<Visit>) {
    forall i | 0 <= i < |visits| :: !visits[i].dropped
  }

  /** One call: what is left plus what was allowed is what was available. */
  lemma StepBudget(l: Limits, key: Option<Bucket>, now: int)
    requires l.Usable()
    ensures var (b, ok) := AllowStep(l, key, now);
            && b.ts == now
            && b.tokens + (if ok then 1.0 else 0.0) <= l.burst as real
            && (key.Some? && now >= key.value.ts ==>
                  b.tokens + (if ok then 1.0 else 0.0) <= key.value.tokens + Refill(l, now - key.value.ts))
  {
  }

  lemma AfterPrefix(l: Limits, visits: seq<Visit>, j: nat)
    requires l.period != 0 && NeverDropped(visits) && 0 < j <= |visits|
    ensures After(l, visits[..j]) == Some(AllowStep(l, After(l, visits[..j - 1]), visits[j - 1].now).0)
    ensures Answer(l, visits, j - 1) == AllowStep(l, After(l, visits[..j - 1]), visits[j - 1].now).1
  {
    assert visits[..j][..j - 1] == visits[..j - 1];
  }

  lemma AllowedNext(l: Limits, visits: seq<Visit>, i: nat, j: nat)
    requires l.period != 0 && i < j <= |visits|
    ensures Allowed(l, visits, i, j) as real
            == Allowed(l, visits, i, j - 1) as real + (if Answer(l, visits, j - 1) then 1.0 else 0.0)
  {
  }

  /** Tokens left plus calls allowed since visit i never exceed the burst plus the refill. */
  ghost predicate Covered(l: Limits, visits: seq<Visit>, i: nat, j: nat)
    requires l.period != 0 && i < j <= |visits|
  {
    var k := After(l, visits[..j]);
    && k.Some? && k.value.ts == visits[j - 1].now
    && k.value.tokens + Allowed(l, visits, i, j) as real
       <= l.burst as real + Refill(l, visits[j - 1].now - visits[i].now)
  }

  /** No time, no refill. */
  lemma NoRefill(l: Limits)
    requires l.period != 0
    ensures Refill(l, 0) == 0.0
  {
  }

  lemma CoveredFirst(l: Limits, visits: seq<Visit>, i: nat)
    requires l.Usable() && NeverDropped(visits) && i < |visits|
    ensures Covered(l, visits, i, i + 1)
  {
    AfterPrefix(l, visits, i + 1);
    StepBudget(l, After(l, visits[..i]), visits[i].now);
    AllowedNext(l, visits, i, i + 1);
    assert visits[i].now - visits[i].now == 0;
    NoRefill(l);
  }

  lemma CoveredNext(l: Limits, visits: seq<Visit>, i: nat, j: nat)
    requires l.Usable() && NeverDropped(visits) && i < j < |visits| && Covered(l, visits, i, j)
    requires visits[j - 1].now <= visits[j].now
    ensures Covered(l, visits, i, j + 1)
  {
    var now := visits[j].now;
    AfterPrefix(l, visits, j + 1);
    StepBudget(l, After(l, visits[..j]), now);
    AllowedNext(l, visits, i, j + 1);
    RefillAdds(l, visits[j - 1].now - visits[i].now, now - visits[j - 1].now);
    assert visits[j - 1].now - visits[i].now + (now - visits[j - 1].now) == now - visits[i].now;
  }

  lemma {:induction false} TokensAndAllowed(l: Limits, visits: seq<Visit>, i: nat, j: nat)
    requires l.Usable() && ClockRuns(visits) && NeverDropped(visits) && i < j <= |visits|
    ensures Covered(l, visits, i, j)
    decreases j - i
  {
    if i == j - 1 {
      CoveredFirst(l, visits, i);
    } else {
      TokensAndAllowed(l, visits, i, j - 1);
      CoveredNext(l, visits, i, j - 1);
    }
  }

  /** In every run and every window i..j the allowed calls are at most the burst plus the refill
      of the window's length. */
  lemma WindowBoundWithoutExpiry(l: Limits, visits: seq<Visit>, i: nat, j: nat)
    requires l.Usable() && ClockRuns(visits) && NeverDropped(visits) && i < j <= |visits|
    ensures Allowed(l, visits, i, j) as real <= l.burst as real + Refill(l, visits[j - 1].now - visits[i].now)
  {
    TokensAndAllowed(l, visits, i, j);
    BucketBounds(l, visits[..j]);
  }

  // ---------- exactly which calls are allowed ----------

  /** The tokens the call at visit j finds. */
  function Found(l: Limits, visits: seq<Visit>, j: nat): real
    requires l.period != 0 && j < |visits|
  {
    Available(l, Seen(After(l, visits[..j]), visits[j]), visits[j].now)
  }

  /** What the window from visit i on leaves for the call at visit j. */
  function Spare(l: Limits, visits: seq<Visit>, i: nat, j: nat): real
    requires l.period != 0 && i <= j < |visits|
  {
    l.burst as real + Refill(l, visits[j].now - visits[i].now) - Allowed(l, visits, i, j) as real
  }

  lemma FoundNext(l: Limits, visits: seq<Visit>, j: nat)
    requires l.Usable() && NeverDropped(visits) && 0 < j < |visits| && visits[j - 1].now <= visits[j].now
    ensures Found(l, visits, j)
            == Min(l.burst as real, Found(l, visits, j - 1) - (if Answer(l, visits, j - 1) then 1.0 else 0.0)
                                    + Refill(l, visits[j].now - visits[j - 1].now))
    ensures Answer(l, visits, j - 1) <==> Found(l, visits, j - 1) >= 1.0
  {
    AfterPrefix(l, visits, j);
  }

  lemma SpareNext(l: Limits, visits: seq<Visit>, i: nat, j: nat)
    requires l.Usable() && i < j < |visits|
    ensures Spare(l, visits, i, j)
            == Spare(l, visits, i, j - 1) - (if Answer(l, visits, j - 1) then 1.0 else 0.0)
               + Refill(l, visits[j].now - visits[j - 1].now)
  {
    AllowedNext(l, visits, i, j);
    RefillAdds(l, visits[j - 1].now - visits[i].now, visits[j].now - visits[j - 1].now);
    assert visits[j - 1].now - visits[i].now + (visits[j].now - visits[j - 1].now) == visits[j].now - visits[i].now;
  }

  lemma SpareOwn(l: Limits, visits: seq<Visit>, j: nat)
    requires l.Usable() && j < |visits|
    ensures Spare(l, visits, j, j) == l.burst as real
  {
    assert visits[j].now - visits[j].now == 0;
    NoRefill(l);
  }

  /** The bucket holds what the tightest window leaves. */
  lemma {:induction false} FoundIsTightest(l: Limits, visits: seq<Visit>, j: nat) returns (t: nat)
    requires l.Usable() && ClockRuns(visits) && NeverDropped(visits) && j < |visits|
    ensures t <= j && Found(l, visits, j) == Spare(l, visits, t, j)
    ensures forall i | 0 <= i <= j :: Found(l, visits, j) <= Spare(l, visits, i, j)
  {
    hide Found, Spare, Answer, Refill;
    SpareOwn(l, visits, j);
    if j == 0 {
      FirstFound(l, visits);
      return 0;
    }
    t := FoundIsTightest(l, visits, j - 1);
    FoundNext(l, visits, j);
    forall i | 0 <= i < j ensures Found(l, visits, j) <= Spare(l, visits, i, j) {
      SpareNext(l, visits, i, j);
    }
    SpareNext(l, visits, t, j);
    if Found(l, visits, j) == l.burst as real {
      t := j;
    }
  }

  lemma FirstFound(l: Limits, visits: seq<Visit>)
    requires l.Usable() && NeverDropped(visits) && visits != []
    ensures Found(l, visits, 0) == l.burst as real
  {
    NoRefill(l);
  }

  /** The limiter allows neither more nor less than its limits say: on every run a call is allowed if
      and only if it fits every window that ends with it, the burst plus what the window refills. */
  lemma AllowedExactly(l: Limits, visits: seq<Visit>, j: nat)
    requires l.Usable() && ClockRuns(visits) && NeverDropped(visits) && j < |visits|
    ensures Answer(l, visits, j) <==>
              forall i | 0 <= i <= j ::
                Allowed(l, visits, i, j) as real + 1.0 <= l.burst as real + Refill(l, visits[j].now - visits[i].now)
  {
    var t := FoundIsTightest(l, visits, j);
    assert Answer(l, visits, j) <==> Found(l, visits, j) >= 1.0;
    forall i | 0 <= i <= j
      ensures Allowed(l, visits, i, j) as real + 1.0 <= l.burst as real + Refill(l, visits[j].now - visits[i].now)
              <==> Spare(l, visits, i, j) >= 1.0
    {
    }
  }

  // ---------- the expiry ----------

  /** The same calls on a server that never drops the key. */
  function Kept(visits: seq<Visit>): seq<Visit> {
    seq(|visits|, i requires 0 <= i < |visits| => visits[i].(dropped := false))
  }

  /** After a whole period every bucket is full again, exactly like a missing key. */
  lemma FullAfterPeriod(l: Limits, b: Bucket, now: int)
    requires l.Usable() && l.burst <= l.rate && b.tokens >= 0.0 && now >= b.ts + l.period
    ensures AllowStep(l, Some(b), now) == AllowStep(l, None, now)
  {
    FullAgain(l, b, now);
    NoRefill(l);
  }

  lemma FullAgain(l: Limits, b: Bucket, now: int)
    requires l.Usable() && l.burst <= l.rate && b.tokens >= 0.0 && now >= b.ts + l.period
    ensures Available(l, Some(b), now) == l.burst as real
  {
    var delta := now - b.ts;
    assert delta * l.rate >= l.period * l.rate;
    PeriodIsWorthRate(l.period, l.rate, delta * l.rate);
    assert Refill(l, delta) >= l.rate as real;
  }

  lemma PeriodIsWorthRate(period: int, rate: int, x: int)
    requires period > 0 && x >= period * rate
    ensures x as real / period as real >= rate as real
  {
    assert x as real >= period as real * rate as real;
  }

  lemma {:induction false} ExpiryKeepsTheKey(l: Limits, visits: seq<Visit>)
    requires l.Usable() && l.burst <= l.rate && Expirable(l, visits)
    ensures After(l, visits) == After(l, Kept(visits))
  {
    if visits != [] {
      var n := |visits| - 1;
      assert Kept(visits)[..n] == Kept(visits[..n]);
      ExpiryKeepsTheKey(l, visits[..n]);
      BucketBounds(l, visits[..n]);
      if visits[n].dropped {
        FullAfterPeriod(l, After(l, visits[..n]).value, visits[n].now);
      }
    }
  }

  /** Dropping the key after a period gives the same answer to every call as never dropping it,
      when a period refills at least the burst. */
  lemma ExpiryIsInvisible(l: Limits, visits: seq<Visit>, i: nat)
    requires l.Usable() && l.burst <= l.rate && Expirable(l, visits) && i < |visits|
    ensures Answer(l, visits, i) == Answer(l, Kept(visits), i)
  {
    assert Kept(visits)[..i] == Kept(visits[..i]);
    ExpiryKeepsTheKey(l, visits[..i]);
    BucketBounds(l, visits[..i]);
    if visits[i].dropped {
      FullAfterPeriod(l, After(l, visits[..i]).value, visits[i].now);
    }
  }

  lemma {:induction false} AllowedKept(l: Limits, visits: seq<Visit>, i: nat, j: nat)
    requires l.Usable() && l.burst <= l.rate && Expirable(l, visits) && i <= j <= |visits|
    ensures Allowed(l, visits, i, j) == Allowed(l, Kept(visits), i, j)
    decreases j - i
  {
    if i < j {
      AllowedKept(l, visits, i, j - 1);
      ExpiryIsInvisible(l, visits, j - 1);
    }
  }

  /** The window bound on the real server, expiry included. */
  lemma WindowBound(l: Limits, visits: seq<Visit>, i: nat, j: nat)
    requires l.Usable() && l.burst <= l.rate && ClockRuns(visits) && Expirable(l, visits) && i < j <= |visits|
    ensures Allowed(l, visits, i, j) as real <= l.burst as real + Refill(l, visits[j - 1].now - visits[i].now)
  {
    AllowedKept(l, visits, i, j);
    WindowBoundWithoutExpiry(l, Kept(visits), i, j);
  }

  // ---------- the condition is exact ----------

  /** n calls at one moment on a bucket that holds that many tokens: all allowed. */
  lemma {:induction false} SpendAtOnce(l: Limits, visits: seq<Visit>, n: nat, tokens: nat)
    requires l.Usable() && 0 < n <= tokens <= l.burst && n <= |visits|
    requires var first := |visits| - n;
             && (forall i | first <= i < |visits| ::
                   visits[i].now == visits[first].now && (i > first ==> !visits[i].dropped))
             && Available(l, Seen(After(l, visits[..first]), visits[first]), visits[first].now) == tokens as real
    ensures After(l, visits) == Some(Bucket((tokens - n) as real, visits[|visits| - 1].now))
    ensures Answer(l, visits, |visits| - 1)
  {
    if n > 1 {
      var before := visits[..|visits| - 1];
      assert before[..|before| - (n - 1)] == visits[..|visits| - n];
      SpendAtOnce(l, before, n - 1, tokens);
      SameMoment(l, tokens - (n - 1), visits[|visits| - 1].now);
    }
    SpendOne(l, visits, tokens - (n - 1));
  }

  lemma SpendOne(l: Limits, visits: seq<Visit>, tokens: nat)
    requires l.Usable() && visits != [] && tokens > 0
    requires var last := |visits| - 1;
             Available(l, Seen(After(l, visits[..last]), visits[last]), visits[last].now) == tokens as real
    ensures After(l, visits) == Some(Bucket((tokens - 1) as real, visits[|visits| - 1].now))
    ensures Answer(l, visits, |visits| - 1)
  {
    SpendWhole(tokens, visits[|visits| - 1].now);
  }

  lemma SpendWhole(tokens: nat, now: int)
    requires tokens > 0
    ensures Spend(tokens as real, now) == (Bucket((tokens - 1) as real, now), true)
  {
  }

  lemma SameMoment(l: Limits, tokens: nat, now: int)
    requires l.Usable() && tokens <= l.burst
    ensures Available(l, Some(Bucket(tokens as real, now)), now) == tokens as real
  {
    NoRefill(l);
  }

  /** Spend the burst at time 0, let the key expire, and call again rate + 1 times. */
  function Probe(l: Limits): seq<Visit>
    requires l.Usable()
  {
    seq(l.burst + l.rate + 1, i requires 0 <= i < l.burst + l.rate + 1 =>
      Visit(if i < l.burst then 0 else l.period, i == l.burst))
  }

  lemma ProbeSpendsTheBurst(l: Limits, visits: seq<Visit>)
    requires l.Usable() && l.rate < l.burst && (visits == Probe(l) || visits == Kept(Probe(l)))
    ensures After(l, visits[..l.burst]) == Some(Bucket(0.0, 0))
  {
    var head := visits[..l.burst];
    assert head[..0] == [] && head[..l.burst] == head;
    NoRefill(l);
    SpendAtOnce(l, head, l.burst, l.burst);
  }

  lemma ProbeIsLegal(l: Limits)
    requires l.Usable() && l.rate < l.burst
    ensures Expirable(l, Probe(l)) && ClockRuns(Probe(l))
  {
  }

  /** With the key dropped, the burst is back. */
  lemma DroppedProbeAllows(l: Limits)
    requires l.Usable() && l.rate < l.burst
    ensures Answer(l, Probe(l), |Probe(l)| - 1)
  {
    var p := Probe(l);
    ProbeSpendsTheBurst(l, p);
    NoRefill(l);
    assert p[..|p| - (l.rate + 1)] == p[..l.burst];
    SpendAtOnce(l, p, l.rate + 1, l.burst);
  }

  /** With the key kept, a period is worth rate calls and no more. */
  lemma KeptProbeRefuses(l: Limits)
    requires l.Usable() && l.rate < l.burst
    ensures !Answer(l, Kept(Probe(l)), |Probe(l)| - 1)
  {
    var k := Kept(Probe(l));
    var most := k[..|k| - 1];
    ProbeSpendsTheBurst(l, k);
    PeriodRefillsRate(l);
    NoRefill(l);
    if l.rate > 0 {
      assert most[..|most| - l.rate] == k[..l.burst];
      SpendAtOnce(l, most, l.rate, l.rate);
      assert After(l, most) == Some(Bucket(0.0, l.period));
    } else {
      assert most == k[..l.burst];
      assert Refill(l, l.period) == 0.0;
    }
  }

  /** With burst above rate the expiry shows: the last of those calls is allowed only because the
      key was dropped. */
  lemma ExpiryShows(l: Limits)
    requires l.Usable() && l.rate < l.burst
    ensures var p := Probe(l);
            Expirable(l, p) && ClockRuns(p) && Answer(l, p, |p| - 1) && !Answer(l, Kept(p), |p| - 1)
  {
    ProbeIsLegal(l);
    DroppedProbeAllows(l);
    KeptProbeRefuses(l);
  }

  lemma PeriodRefillsRate(l: Limits)
    requires l.period > 0
    ensures Refill(l, l.period) == l.rate as real
  {
    assert (l.period * l.rate) as real == l.rate as real * l.period as real;
  }

  /** The expiry is invisible on every run exactly when a period refills the burst. */
  lemma ExpiryInvisibleExactly(l: Limits)
    requires l.Usable()
    ensures l.burst <= l.rate <==>
            (forall visits: seq<Visit>, i: nat | ClockRuns(visits) && Expirable(l, visits) && i < |visits| ::
               Answer(l, visits, i) == Answer(l, Kept(visits), i))
  {
    if l.burst <= l.rate {
      forall visits: seq<Visit>, i: nat | ClockRuns(visits) && Expirable(l, visits) && i < |visits|
        ensures Answer(l, visits, i) == Answer(l, Kept(visits), i)
      {
        ExpiryIsInvisible(l, visits, i);
      }
    } else {
      ExpiryShows(l);
      var p := Probe(l);
      assert Answer(l, p, |p| - 1) != Answer(l, Kept(p), |p| - 1);
    }
  }

  /** Every call of the probe is allowed on the real server. */
  lemma ProbeAllows(l: Limits, i: nat)
    requires l.Usable() && l.rate < l.burst && i < |Probe(l)|
    ensures Answer(l, Probe(l), i)
  {
    var p := Probe(l);
    var head := p[..i + 1];
    assert head[..i] == p[..i];
    NoRefill(l);
    if i < l.burst {
      assert head[..|head| - (i + 1)] == [];
      SpendAtOnce(l, head, i + 1, l.burst);
    } else {
      ProbeSpendsTheBurst(l, p);
      assert head[..|head| - (i - l.burst + 1)] == p[..l.burst];
      SpendAtOnce(l, head, i - l.burst + 1, l.burst);
    }
  }

  lemma {:induction false} ProbeAllowed(l: Limits, j: nat)
    requires l.Usable() && l.rate < l.burst && j <= |Probe(l)|
    ensures Allowed(l, Probe(l), 0, j) == j
  {
    if j > 0 {
      ProbeAllowed(l, j - 1);
      ProbeAllows(l, j - 1);
    }
  }

  ghost predicate WindowHolds(l: Limits, visits: seq<Visit>, i: nat, j: nat)
    requires l.period != 0 && i < j <= |visits|
  {
    Allowed(l, visits, i, j) as real <= l.burst as real + Refill(l, visits[j - 1].now - visits[i].now)
  }

  /** With a burst above the rate, one period sees burst + rate + 1 calls allowed. */
  lemma ProbeBreaksTheWindow(l: Limits)
    requires l.Usable() && l.rate < l.burst
    ensures var p := Probe(l);
            Expirable(l, p) && ClockRuns(p) && 0 < |p| && !WindowHolds(l, p, 0, |p|)
  {
    var p := Probe(l);
    ProbeIsLegal(l);
    ProbeAllowed(l, |p|);
    PeriodRefillsRate(l);
    assert p[|p| - 1].now - p[0].now == l.period;
  }

  /** The window bound holds on every run of the real server, expiry included, exactly when a period
      refills the burst. */
  lemma WindowBoundExactly(l: Limits)
    requires l.Usable()
    ensures l.burst <= l.rate <==>
            (forall visits: seq<Visit>, i: nat, j: nat
               | ClockRuns(visits) && Expirable(l, visits) && i < j <= |visits| :: WindowHolds(l, visits, i, j))
  {
    if l.burst <= l.rate {
      forall visits: seq<Visit>, i: nat, j: nat | ClockRuns(visits) && Expirable(l, visits) && i < j <= |visits|
        ensures WindowHolds(l, visits, i, j)
      {
        WindowBound(l, visits, i, j);
      }
    } else {
      ProbeBreaksTheWindow(l);
      assert !WindowHolds(l, Probe(l), 0, |Probe(l)|);
    }
  }
}
