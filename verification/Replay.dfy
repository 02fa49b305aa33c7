/** Dead letters on JetStream and back: the headers a dead letter carries (jetstream/dlq.go), the
    headers a replay keeps, and the replay loop with its acknowledgements (jetstream/replayer.go). */
module Replay {
  import opened Base
  import Truncate

  type Text = Truncate.Text

  type Headers = map<string, seq<Text>>

  const DLQ_PREFIX := "Eventbus-Dlq-"
  const REPLAY_PREFIX := "Eventbus-Replay-"
  const NATS_PREFIX := "Nats-"
  const MSG_ID := "Nats-Msg-Id"

  function LowerChar(c: char): char {
    if 'A' <= c <= 'Z' then (c as int + 32) as char else c
  }

  function Lower(s: string): string {
    seq(|s|, i requires 0 <= i < |s| => LowerChar(s[i]))
  }

  /** A case-insensitive prefix. */
  predicate Under(key: string, prefix: string) {
    Lower(prefix) <= Lower(key)
  }

  /** A header of the user: none of the three reserved prefixes. */
  predicate UserKey(key: string) {
    !Under(key, DLQ_PREFIX) && !Under(key, REPLAY_PREFIX) && !Under(key, NATS_PREFIX)
  }

  function UserPart(h: Headers): Headers {
    map k | k in h && UserKey(k) :: h[k]
  }

  // ---------- dead-lettering ----------

  function CopyHeaders(src: Headers): Headers {
    map k | k in src && !Under(k, NATS_PREFIX) && !Under(k, DLQ_PREFIX) :: src[k]
  }

  /** msgId is a message id of the headers: the first value under a name that spells the broker's, in
      whatever case, and nothing when there is none. */
  ghost predicate IdOf(h: Headers, msgId: Text) {
    && (msgId == [] || exists k :: k in h && Lower(k) == Lower(MSG_ID) && |h[k]| > 0 && msgId == h[k][0])
    && (msgId == [] ==> forall k | k in h && Lower(k) == Lower(MSG_ID) && |h[k]| > 0 :: h[k][0] == [])
  }

  method DlqCopyHeaders(src: Headers) returns (h: Headers, msgId: Text)
    ensures h == CopyHeaders(src)
    ensures IdOf(src, msgId)
  {
    h, msgId := map[], [];
    var left := src.Keys;
    while left != {}
      invariant left <= src.Keys
      invariant h == map k | k in src && k !in left && !Under(k, NATS_PREFIX) && !Under(k, DLQ_PREFIX) :: src[k]
      invariant msgId == [] || exists k :: k in src && Lower(k) == Lower(MSG_ID) && |src[k]| > 0 && msgId == src[k][0]
      invariant msgId == [] ==>
                  forall k | k in src && k !in left && Lower(k) == Lower(MSG_ID) && |src[k]| > 0 :: src[k][0] == []
      decreases |left|
    {
      var k :| k in left;
      left := left - {k};
      if Under(k, NATS_PREFIX) {
        if Lower(k) == Lower(MSG_ID) && msgId == [] && |src[k]| > 0 {
          msgId := src[k][0];
        }
      } else if !Under(k, DLQ_PREFIX) {
        h := h[k := src[k]];
      }
      MsgIdIsNats(k);
    }
  }

  /** The broker's message id is one of its own headers. */
  lemma MsgIdIsNats(k: string)
    ensures Lower(k) == Lower(MSG_ID) ==> Under(k, NATS_PREFIX)
  {
    assert Lower(NATS_PREFIX) <= Lower(MSG_ID);
  }

  /** Header.Set for every pair. */
  function SetAll(h: Headers, extra: map<string, Text>): Headers {
    map k | k in h.Keys + extra.Keys :: if k in extra then [extra[k]] else h[k]
  }

  datatype Message = Message(subject: Text, headers: Headers, body: seq<int>)

  /** Where the dead letters go: under a prefix, with the subject of the message or the name of its
      event. */
  datatype Place = Place(prefix: Text, eventName: Text)

  const UNKNOWN: Text := [0x75, 0x6E, 0x6B, 0x6E, 0x6F, 0x77, 0x6E]

  function DlqSubject(p: Place, subject: Text): Text {
    p.prefix + if subject != [] then subject else if p.eventName != [] then p.eventName else UNKNOWN
  }

  /** What DLQ.Publish stores for a message received with an envelope. failure are the
      Eventbus-Dlq- headers of the attempt the broker accepted. */
  function DeadLetter(m: Message, failure: map<string, Text>, p: Place): Message {
    Message(DlqSubject(p, m.subject), SetAll(CopyHeaders(m.headers), failure), m.body)
  }

  predicate DlqOnly(failure: map<string, Text>) {
    forall k | k in failure :: DLQ_PREFIX <= k
  }

  const REASON := "Eventbus-Dlq-Reason"
  const ORIGINAL_SUBJECT := "Eventbus-Dlq-Original-Subject"
  const EVENT_ID := "Eventbus-Dlq-Event-Id"
  const HANDLER := "Eventbus-Dlq-Handler"
  const CAUSE := "Eventbus-Dlq-Cause"
  const ORIGINAL_MSG_ID := "Eventbus-Dlq-Original-Msg-Id"
  const TRACEPARENT := "Eventbus-Dlq-Traceparent"

  /** What is left of the failure headers in the retry after a payload that was too large. */
  const MINIMAL := {REASON, ORIGINAL_SUBJECT, EVENT_ID, HANDLER, CAUSE}

  function IfSet(key: string, value: Text): map<string, Text> {
    if value == [] then map[] else map[key := value]
  }

  /** The byte limits of a failure header, and of the cause in the second attempt. */
  const HEADER_LIMIT := 1024
  const MINIMAL_CAUSE_LIMIT := 128

  /** The first attempt: every failure header, the message id of the original and the trace. */
  function FullMarks(failure: map<string, Text>, msgId: Text, trace: Text): map<string, Text> {
    failure
    + (if msgId == [] then map[] else map[ORIGINAL_MSG_ID := Truncate.TruncateHeader(msgId, HEADER_LIMIT)])
    + IfSet(TRACEPARENT, trace)
  }

  /** The second attempt, with a shorter cause. */
  function MinimalMarks(failure: map<string, Text>, trace: Text): map<string, Text> {
    IfSet(TRACEPARENT, trace)
    + map k | k in failure && k in MINIMAL ::
        if k == CAUSE then Truncate.TruncateHeader(failure[k], MINIMAL_CAUSE_LIMIT) else failure[k]
  }

  /** What the marks of an accepted dead letter say: Eventbus-Dlq- headers only, always with the
      subject a replay goes back to and the trace, if there is one; on the first send with the message
      id of the original and every other failure header as it is, and on the second with none but the
      minimal ones, of which the cause is cut to 128 bytes. */
  ghost predicate Describes(
    failure: map<string, Text>, marks: map<string, Text>, msgId: Text, trace: Text, first: bool)
  {
    && DlqOnly(marks)
    && (ORIGINAL_SUBJECT in failure ==>
          ORIGINAL_SUBJECT in marks && marks[ORIGINAL_SUBJECT] == failure[ORIGINAL_SUBJECT])
    && (trace != [] ==> TRACEPARENT in marks)
    && (first ==>
          && marks.Keys <= failure.Keys + {ORIGINAL_MSG_ID, TRACEPARENT}
          && (trace != [] ==> marks[TRACEPARENT] == trace)
          && (msgId != [] ==>
                ORIGINAL_MSG_ID in marks && marks[ORIGINAL_MSG_ID] == Truncate.TruncateHeader(msgId, 1024))
          && (forall k | k in failure && k != ORIGINAL_MSG_ID && k != TRACEPARENT ::
                k in marks && marks[k] == failure[k]))
    && (!first ==>
          && marks.Keys <= failure.Keys * MINIMAL + {TRACEPARENT}
          && (trace != [] ==> marks[TRACEPARENT] == trace)
          && (CAUSE in failure ==> CAUSE in marks && marks[CAUSE] == Truncate.TruncateHeader(failure[CAUSE], 128))
          && (forall k | k in failure && k in {REASON, ORIGINAL_SUBJECT, EVENT_ID, HANDLER} ::
                k in marks && marks[k] == failure[k]))
  }

  /** The names differ, by their lengths. */
  lemma NamesDiffer()
    ensures |{ORIGINAL_SUBJECT, ORIGINAL_MSG_ID, TRACEPARENT, CAUSE, REASON, EVENT_ID, HANDLER}| == 7
    ensures ORIGINAL_SUBJECT != ORIGINAL_MSG_ID && ORIGINAL_SUBJECT != TRACEPARENT && ORIGINAL_MSG_ID != TRACEPARENT
    ensures CAUSE !in {REASON, ORIGINAL_SUBJECT, EVENT_ID, HANDLER} && TRACEPARENT !in MINIMAL
  {
    assert |ORIGINAL_SUBJECT| == 29 && |ORIGINAL_MSG_ID| == 28 && |TRACEPARENT| == 24 && |CAUSE| == 18;
    assert |REASON| == 19 && |EVENT_ID| == 21 && |HANDLER| == 20;
  }

  lemma FullDescribes(failure: map<string, Text>, msgId: Text, trace: Text)
    requires DlqOnly(failure)
    ensures Describes(failure, FullMarks(failure, msgId, trace), msgId, trace, true)
  {
    assert DLQ_PREFIX <= ORIGINAL_MSG_ID && DLQ_PREFIX <= TRACEPARENT;
    NamesDiffer();
  }

  lemma MinimalDescribes(failure: map<string, Text>, msgId: Text, trace: Text)
    requires DlqOnly(failure)
    ensures Describes(failure, MinimalMarks(failure, trace), msgId, trace, false)
  {
    assert DLQ_PREFIX <= TRACEPARENT;
    NamesDiffer();
  }

  /** How the broker answers one send. */
  datatype Reply = Stored | TooLarge | Refused

  /** DLQ.Publish of a message received with an envelope: one send, and a second one with the
      minimal headers only when the broker found the first too large. Whichever is stored keeps the
      envelope and the original headers outside the broker's and the failure's own. */
  method Publish(m: Message, failure: map<string, Text>, trace: Text, p: Place, first: Reply, second: Reply)
    returns (stored: Option<Message>, sends: nat)
    requires DlqOnly(failure)
    ensures sends == if first == TooLarge then 2 else 1
    ensures stored.Some? <==> first == Stored || (first == TooLarge && second == Stored)
    ensures stored.Some? ==>
              exists marks, msgId :: IdOf(m.headers, msgId) && Describes(failure, marks, msgId, trace, sends == 1)
                                     && stored.value == DeadLetter(m, marks, p)
  {
    var h, msgId := DlqCopyHeaders(m.headers);
    var marks := FullMarks(failure, msgId, trace);
    FullDescribes(failure, msgId, trace);
    sends := 1;
    var reply := first;
    if reply == TooLarge {
      marks := MinimalMarks(failure, trace);
      MinimalDescribes(failure, msgId, trace);
      sends := 2;
      reply := second;
    }
    stored := if reply == Stored then Some(Message(DlqSubject(p, m.subject), SetAll(h, marks), m.body)) else None;
    assert stored.Some? ==> stored.value == DeadLetter(m, marks, p);
  }

  // ---------- replaying ----------

  function ReplayHeaders(src: Headers): Headers {
    map k | k in src && !Under(k, DLQ_PREFIX) && !Under(k, REPLAY_PREFIX) && !Under(k, NATS_PREFIX) :: src[k]
  }

  method ReplayHeadersLoop(src: Headers) returns (h: Headers)
    ensures h == ReplayHeaders(src)
  {
    h := map[];
    var left := src.Keys;
    while left != {}
      invariant left <= src.Keys
      invariant h == map k | k in src && k !in left
                       && !Under(k, DLQ_PREFIX) && !Under(k, REPLAY_PREFIX) && !Under(k, NATS_PREFIX) :: src[k]
      decreases |left|
    {
      var k :| k in left;
      left := left - {k};
      if !(Under(k, DLQ_PREFIX) || Under(k, REPLAY_PREFIX) || Under(k, NATS_PREFIX)) {
        h := h[k := src[k]];
      }
    }
  }

  /** Where the replayer sends a dead letter: to ToSubject when it is set, back to the subject in the
      header otherwise. */
  function Target(m: Message, to: Text): Text {
    if to != [] then to
    else if ORIGINAL_SUBJECT in m.headers && |m.headers[ORIGINAL_SUBJECT]| > 0 then m.headers[ORIGINAL_SUBJECT][0]
    else []
  }

  /** unicode.IsSpace of the rune at the start, control characters aside. */
  predicate SpaceHead(s: Text)
    requires s != []
  {
    || s[0] == 0x20
    || (|s| >= 2 && s[..2] == [0xC2, 0xA0])
    || (|s| >= 3 && (s[..3] == [0xE1, 0x9A, 0x80] || s[..3] == [0xE2, 0x81, 0x9F] || s[..3] == [0xE3, 0x80, 0x80]
                     || (s[..2] == [0xE2, 0x80] && (s[2] <= 0x8A || s[2] in {0xA8, 0xA9, 0xAF}))))
  }

  predicate Spaceless(s: Text) {
    s == []
    || (if Truncate.RuneLen(s) == 0 then Spaceless(s[1..])
        else !SpaceHead(s) && !Truncate.ControlHead(s) && Spaceless(s[Truncate.RuneLen(s)..]))
  }

  /** strings.Split at the dots. */
  function Tokens(s: Text, token: Text): seq<Text> {
    if s == [] then [token]
    else if s[0] == 0x2E then [token] + Tokens(s[1..], [])
    else Tokens(s[1..], token + [s[0]])
  }

  /** validReplaySubject: no whitespace or control character, no empty and no wildcard token. */
  predicate Usable(s: Text) {
    s != [] && Spaceless(s) && [] !in Tokens(s, []) && [0x2A] !in Tokens(s, []) && [0x3E] !in Tokens(s, [])
  }

  /** What the replayer publishes for a dead letter; marks are its own headers. */
  function Republish(m: Message, marks: map<string, Text>, to: Text): Message {
    Message(Target(m, to), SetAll(ReplayHeaders(m.headers), marks), m.body)
  }

  predicate ReplayOnly(marks: map<string, Text>) {
    forall k | k in marks :: REPLAY_PREFIX <= k || k == MSG_ID
  }

  // ---------- the round trip ----------

  /** One trip: dead-lettered with these headers, replayed with these marks, to ToSubject if set. */
  datatype Trip = Trip(place: Place, failure: map<string, Text>, marks: map<string, Text>, to: Text)

  function Dead(m: Message, t: Trip): Message {
    DeadLetter(m, t.failure, t.place)
  }

  function RoundTrips(m: Message, trips: seq<Trip>): Message {
    if trips == [] then m
    else
      var n := |trips| - 1;
      Republish(Dead(RoundTrips(m, trips[..n]), trips[n]), trips[n].marks, trips[n].to)
  }

  lemma PrefixIsUnder(key: string, prefix: string)
    requires prefix <= key
    ensures Under(key, prefix)
  {
    assert forall i | 0 <= i < |prefix| :: Lower(key)[i] == Lower(prefix)[i];
  }

  lemma ReservedKeys(failure: map<string, Text>, marks: map<string, Text>)
    requires DlqOnly(failure) && ReplayOnly(marks)
    ensures forall k | k in failure :: !UserKey(k) && Under(k, DLQ_PREFIX)
    ensures forall k | k in marks :: !UserKey(k)
  {
    forall k | k in failure ensures Under(k, DLQ_PREFIX) {
      PrefixIsUnder(k, DLQ_PREFIX);
    }
    forall k | k in marks ensures !UserKey(k) {
      if REPLAY_PREFIX <= k {
        PrefixIsUnder(k, REPLAY_PREFIX);
      } else {
        MsgIdIsNats(k);
      }
    }
  }

  lemma OneTrip(m: Message, t: Trip)
    requires DlqOnly(t.failure) && ReplayOnly(t.marks)
    ensures var r := Republish(Dead(m, t), t.marks, t.to);
            && r.body == m.body
            && UserPart(r.headers) == UserPart(m.headers)
            && (forall k | k in r.headers && !UserKey(k) :: k in t.marks && r.headers[k] == [t.marks[k]])
  {
    hide Under, Target, DlqSubject;
    ReservedKeys(t.failure, t.marks);
    var d := Dead(m, t);
    assert forall k :: k in ReplayHeaders(d.headers) <==> k in UserPart(m.headers);
  }

  /** Any number of dead-letter and replay cycles keeps the envelope bytes and exactly the original
      headers outside the reserved prefixes; of the reserved ones only the marks of the last replay
      are left. */
  lemma {:induction false} CyclesKeepTheMessage(m: Message, trips: seq<Trip>)
    requires forall i | 0 <= i < |trips| :: DlqOnly(trips[i].failure) && ReplayOnly(trips[i].marks)
    ensures var r := RoundTrips(m, trips);
            && r.body == m.body
            && UserPart(r.headers) == UserPart(m.headers)
            && (trips != [] ==> forall k | k in r.headers && !UserKey(k) ::
                  k in trips[|trips| - 1].marks && r.headers[k] == [trips[|trips| - 1].marks[k]])
  {
    if trips != [] {
      var n := |trips| - 1;
      CyclesKeepTheMessage(m, trips[..n]);
      OneTrip(RoundTrips(m, trips[..n]), trips[n]);
    }
  }

  /** The failure headers name the subject of the message, within the header limit. */
  predicate NamesSubject(failure: map<string, Text>, subject: Text) {
    if subject == [] then ORIGINAL_SUBJECT !in failure
    else ORIGINAL_SUBJECT in failure && failure[ORIGINAL_SUBJECT] == Truncate.TruncateHeader(subject, HEADER_LIMIT)
  }

  lemma TargetIs(m: Message, t: Trip)
    requires NamesSubject(t.failure, m.subject) && t.to == []
    ensures Target(Dead(m, t), t.to) == Truncate.TruncateHeader(m.subject, HEADER_LIMIT)
  {
    if m.subject == [] {
      PrefixIsUnder(ORIGINAL_SUBJECT, DLQ_PREFIX);
      assert Truncate.Sanitized([]) == [];
    }
  }

  /** Exactly when a message is replayed to its own subject: when the subject is usable as a target,
      at most 1024 bytes long and well formed. */
  lemma ReturnsExactly(m: Message, t: Trip)
    requires NamesSubject(t.failure, m.subject) && t.to == []
    ensures var target := Target(Dead(m, t), t.to);
            Usable(target) && target == m.subject
            <==> Usable(m.subject) && Truncate.Printable(m.subject) && |m.subject| <= 1024
  {
    TargetIs(m, t);
    Truncate.UnchangedExactly(m.subject, HEADER_LIMIT);
  }

  lemma NoTrip(m: Message)
    ensures RoundTrips(m, []) == m
  {
  }

  lemma LastTrip(m: Message, trips: seq<Trip>)
    requires trips != []
    ensures var n := |trips| - 1;
            RoundTrips(m, trips).subject == Target(Dead(RoundTrips(m, trips[..n]), trips[n]), trips[n].to)
  {
  }

  /** With ToSubject set every dead letter goes there, whatever its headers say. */
  lemma ToSubjectWins(m: Message, to: Text)
    requires to != []
    ensures Target(m, to) == to
  {
  }

  /** Dead letters of one place keep apart: each is published under the prefix and never on the bare
      prefix, and messages of different subjects go to different ones. */
  lemma PlacesKeepApart(p: Place, s: Text, t: Text)
    ensures p.prefix <= DlqSubject(p, s) && |DlqSubject(p, s)| > |p.prefix|
    ensures s != [] ==> DlqSubject(p, s)[|p.prefix|..] == s
    ensures s == [] && p.eventName != [] ==> DlqSubject(p, s)[|p.prefix|..] == p.eventName
    ensures s != [] && t != [] && DlqSubject(p, s) == DlqSubject(p, t) ==> s == t
  {
    if s != [] && t != [] {
      assert (p.prefix + s)[|p.prefix|..] == s && (p.prefix + t)[|p.prefix|..] == t;
    }
  }

  /** And then any number of cycles without ToSubject brings it back there, each time to a usable
      target. */
  lemma {:induction false} CyclesReturnToSubject(m: Message, trips: seq<Trip>)
    requires Usable(m.subject) && Truncate.Printable(m.subject) && |m.subject| <= 1024
    requires forall i | 0 <= i < |trips| ::
               trips[i].to == [] && NamesSubject(trips[i].failure, RoundTrips(m, trips[..i]).subject)
    ensures RoundTrips(m, trips).subject == m.subject
    ensures forall i | 0 <= i < |trips| :: Usable(Target(Dead(RoundTrips(m, trips[..i]), trips[i]), []))
  {
    hide Usable, Target, NamesSubject, Dead, RoundTrips;
    if trips == [] {
      NoTrip(m);
    } else {
      var n := |trips| - 1;
      forall i | 0 <= i < n ensures trips[..n][..i] == trips[..i] {
      }
      CyclesReturnToSubject(m, trips[..n]);
      LastTrip(m, trips);
      ReturnsExactly(RoundTrips(m, trips[..n]), trips[n]);
      forall i | 0 <= i < |trips| ensures Usable(Target(Dead(RoundTrips(m, trips[..i]), trips[i]), [])) {
        if i < n {
          assert trips[..n][i] == trips[i] && trips[..n][..i] == trips[..i];
        }
      }
    }
  }

  // ---------- the replay loop ----------

  /** A fetched record: whether its target subject is usable, and whether the publish succeeds. */
  datatype Record = Record(target: bool, accepted: bool) {
    predicate Replayable() {
      target && accepted
    }
  }

  /** The answer of one fetch. failed is the error of a batch after its messages. */
  datatype Round = NoMessages | FetchFailed | Batch(records: seq<Record>, failed: bool)

  /** What became of a record taken from the stream. */
  datatype Entry = Entry(acked: bool, published: bool)

  /** Why Replay returned: a nil error for Drained and LimitReached, an error otherwise. */
  datatype End = Drained | LimitReached | RecordFailed | BrokerFailed | ContextDone

  datatype Result = Result(replayed: nat, failed: nat, end: End)

  const BATCH_SIZE := 64

  /** How many records the next fetch asks for; none when the limit is reached. */
  function Ask(limit: int, replayed: nat): int {
    if limit <= 0 then BATCH_SIZE
    else if limit - replayed < BATCH_SIZE then limit - replayed
    else BATCH_SIZE
  }

  /** The records one fetch delivers: no more than it asked for. */
  function Delivered(round: Round, ask: int): seq<Record>
    requires round.Batch? && 0 < ask
  {
    if |round.records| <= ask then round.records else round.records[..ask]
  }

  /** Every one of the records replays. */
  ghost predicate Clean(records: seq<Record>) {
    records == [] || (Clean(records[..|records| - 1]) && records[|records| - 1].Replayable())
  }

  /** The records one round takes from the stream, after n records that were all replayed. */
  ghost function Share(round: Round, limit: int, n: nat): seq<Record> {
    var ask := Ask(limit, n);
    if ask <= 0 || !round.Batch? then [] else Delivered(round, ask)
  }

  /** How that round ends the call, ContextDone if it does not: the limit comes before the answer of
      the fetch, and a failed record before an error of the batch, and that before an empty batch. */
  ghost function Verdict(round: Round, limit: int, n: nat): End {
    if Ask(limit, n) <= 0 then LimitReached
    else if round.NoMessages? then Drained
    else if round.FetchFailed? then BrokerFailed
    else if !Clean(Share(round, limit, n)) then RecordFailed
    else if round.failed then BrokerFailed
    else if Share(round, limit, n) == [] then Drained
    else ContextDone
  }

  /** Every record the call takes from the stream, in order. */
  ghost function Taken(rounds: seq<Round>, limit: int, n: nat): seq<Record> {
    if rounds == [] then []
    else
      var got := Share(rounds[0], limit, n);
      if Verdict(rounds[0], limit, n) == ContextDone then got + Taken(rounds[1..], limit, n + |got|) else got
  }

  /** The answer of Replay: that of the first round that ends it. */
  ghost function Answer(rounds: seq<Round>, limit: int, n: nat): End {
    if rounds == [] then ContextDone
    else
      var v := Verdict(rounds[0], limit, n);
      if v == ContextDone then Answer(rounds[1..], limit, n + |Share(rounds[0], limit, n)|) else v
  }

  /** The books of one Replay call: every record taken was settled once, acknowledged exactly when
      it and every record before it replayed, and otherwise given back; nothing was published after
      the first failure. BooksAt reads an entry by its index. */
  ghost predicate Books(taken: seq<Record>, log: seq<Entry>) {
    |log| == |taken|
    && (taken == [] ||
          var n := |taken| - 1;
          && Books(taken[..n], log[..n])
          && (log[n].acked <==> Clean(taken))
          && (log[n].published <==> Clean(taken[..n]) && taken[n].target))
  }

  function AckWeight(e: Entry): nat {
    if e.acked then 1 else 0
  }

  lemma {:induction false} CleanAt(records: seq<Record>)
    ensures Clean(records) <==> forall j | 0 <= j < |records| :: records[j].Replayable()
  {
    if records != [] {
      var n := |records| - 1;
      CleanAt(records[..n]);
      if Clean(records[..n]) {
        assert forall j | 0 <= j < n :: records[..n][j].Replayable();
      }
      if forall j | 0 <= j < |records| :: records[j].Replayable() {
        assert forall j | 0 <= j < n :: records[..n][j] == records[j];
      }
    }
  }

  /** The record at k was acknowledged exactly when the records up to and including it replay, and
      published exactly when those before it replay and its own target is usable. */
  lemma {:induction false} BooksAt(taken: seq<Record>, log: seq<Entry>, k: nat)
    requires Books(taken, log) && k < |taken|
    ensures log[k].acked <==> forall j | 0 <= j <= k :: taken[j].Replayable()
    ensures log[k].published <==> taken[k].target && forall j | 0 <= j < k :: taken[j].Replayable()
  {
    var n := |taken| - 1;
    if k < n {
      BooksAt(taken[..n], log[..n], k);
      assert forall j | 0 <= j <= k :: taken[..n][j] == taken[j];
    } else {
      CleanAt(taken);
      CleanAt(taken[..n]);
      assert forall j | 0 <= j < n :: taken[..n][j] == taken[j];
    }
  }

  lemma Extend(taken: seq<Record>, log: seq<Entry>, k: nat, e: Entry)
    requires k < |taken| && Books(taken[..k], log)
    requires e.acked <==> Clean(taken[..k]) && taken[k].Replayable()
    requires e.published <==> Clean(taken[..k]) && taken[k].target
    ensures Books(taken[..k + 1], log + [e])
    ensures Clean(taken[..k + 1]) <==> Clean(taken[..k]) && taken[k].Replayable()
    ensures Sum(AckWeight, log + [e]) == Sum(AckWeight, log) + AckWeight(e)
  {
    assert taken[..k + 1][..k] == taken[..k] && (log + [e])[..|log|] == log;
  }

  lemma {:induction false} CleanOfConcat(a: seq<Record>, b: seq<Record>)
    ensures Clean(a + b) <==> Clean(a) && Clean(b)
  {
    if b == [] {
      assert a + b == a;
    } else {
      var n := |b| - 1;
      CleanOfConcat(a, b[..n]);
      assert (a + b)[..|a| + n] == a + b[..n];
    }
  }

  /** The acknowledgements are as many as the records just when every record replays. */
  lemma {:induction false} AckCount(taken: seq<Record>, log: seq<Entry>)
    requires Books(taken, log)
    ensures Sum(AckWeight, log) <= |log|
    ensures Sum(AckWeight, log) == |log| <==> Clean(taken)
  {
    if taken != [] {
      AckCount(taken[..|taken| - 1], log[..|taken| - 1]);
    }
  }

  /** replayOne: publish one record and settle it. */
  method ReplayOne(r: Record, res: Result) returns (e: Entry, after: Result)
    ensures (e.published <==> r.target) && (e.acked <==> r.Replayable())
    ensures after == if r.Replayable() then res.(replayed := res.replayed + 1) else res.(failed := res.failed + 1)
  {
    if !r.target {
      return Entry(false, false), res.(failed := res.failed + 1);
    }
    if !r.accepted {
      return Entry(false, true), res.(failed := res.failed + 1);
    }
    return Entry(true, true), res.(replayed := res.replayed + 1);
  }

  /** The messages loop of Replay over one batch. */
  method ReplayBatch(batch: seq<Record>, start: Result) returns (res: Result, log: seq<Entry>)
    requires start.failed == 0
    ensures Books(batch, log)
    ensures res.replayed == start.replayed + Sum(AckWeight, log)
    ensures res.failed == if Clean(batch) then 0 else 1
    ensures res.end == start.end
  {
    res, log := start, [];
    var recErr := false;
    for k := 0 to |batch|
      invariant Books(batch[..k], log)
      invariant recErr <==> !Clean(batch[..k])
      invariant res.failed == if recErr then 1 else 0
      invariant res.replayed == start.replayed + Sum(AckWeight, log)
      invariant res.end == start.end
    {
      var e := Entry(false, false);
      if !recErr {
        e, res := ReplayOne(batch[k], res);
        recErr := !e.acked;
      }
      Extend(batch, log, k, e);
      log := log + [e];
    }
    assert batch[..|batch|] == batch;
  }

  lemma {:induction false} Join(a: seq<Record>, la: seq<Entry>, b: seq<Record>, lb: seq<Entry>)
    requires Books(a, la) && Clean(a) && Books(b, lb)
    ensures Books(a + b, la + lb)
    ensures Clean(a + b) <==> Clean(b)
    ensures Sum(AckWeight, la + lb) == Sum(AckWeight, la) + Sum(AckWeight, lb)
  {
    hide Clean;
    CleanOfConcat(a, b);
    if b == [] {
      assert a + b == a && la + lb == la;
    } else {
      var n := |b| - 1;
      Join(a, la, b[..n], lb[..n]);
      assert (a + b)[..|a| + n] == a + b[..n] && (la + lb)[..|a| + n] == la + lb[..n];
    }
    SumConcat(AckWeight, la, lb);
  }

  /** What one round takes: nothing once the limit is reached or without a batch, and of a batch the
      first 64 records at most, and no more than the limit leaves. */
  lemma ShareExactly(round: Round, limit: int, n: nat)
    ensures var got := Share(round, limit, n);
            if (limit > 0 && n >= limit) || !round.Batch? then got == []
            else
              && got <= round.records && |got| <= 64 && (limit > 0 ==> |got| <= limit - n)
              && (got == round.records || |got| == 64 || (limit > 0 && |got| == limit - n))
  {
  }

  /** How a round ends the call, whatever order the checks come in: a nil error only when the limit is
      reached, or the stream is drained with nothing gone wrong; an error of the broker never gets lost,
      unless a record failed before it. */
  lemma VerdictExactly(round: Round, limit: int, n: nat)
    ensures var v := Verdict(round, limit, n);
            var reached := limit > 0 && n >= limit;
            var got := Share(round, limit, n);
            var bad := exists j :: 0 <= j < |got| && !got[j].Replayable();
            && (v == LimitReached <==> reached)
            && (v == RecordFailed <==> bad)
            && (v == BrokerFailed <==> !reached && !bad && (round.FetchFailed? || (round.Batch? && round.failed)))
            && (v == Drained <==> !reached && (round.NoMessages? || (round.Batch? && !round.failed && got == [])))
            && (v == ContextDone <==> !reached && !bad && round.Batch? && !round.failed && got != [])
  {
    CleanAt(Share(round, limit, n));
  }

  /** How the records taken and the answer unfold by one round. */
  lemma TakenStep(rounds: seq<Round>, limit: int, i: nat, seen: seq<Record>, n: nat)
    requires i < |rounds|
    ensures var now := seen + Share(rounds[i], limit, n);
            var v := Verdict(rounds[i], limit, n);
            if v == ContextDone then
              && seen + Taken(rounds[i..], limit, n) == now + Taken(rounds[i + 1..], limit, |now| - |seen| + n)
              && Answer(rounds[i..], limit, n) == Answer(rounds[i + 1..], limit, |now| - |seen| + n)
            else seen + Taken(rounds[i..], limit, n) == now && Answer(rounds[i..], limit, n) == v
  {
    assert rounds[i..][0] == rounds[i] && rounds[i..][1..] == rounds[i + 1..];
  }

  /** The call so far: everything taken is in the books, and the counts agree with them. */
  ghost predicate Kept(taken: seq<Record>, log: seq<Entry>, res: Result, limit: int) {
    && Books(taken, log)
    && res.replayed == Sum(AckWeight, log)
    && (limit > 0 ==> |log| <= limit)
    && res.failed == (if res.end == RecordFailed then 1 else 0)
    && (res.end == RecordFailed <==> res.replayed != |log|)
    && (res.end == LimitReached ==> limit > 0 && res.replayed == limit)
    && (Clean(taken) <==> res.end != RecordFailed)
  }

  /** One pass of the fetch loop. */
  method ReplayRound(round: Round, limit: int, ghost seen: seq<Record>, before: seq<Entry>, start: Result)
    returns (res: Result, log: seq<Entry>)
    requires Kept(seen, before, start, limit) && start.end == ContextDone
    ensures Kept(seen + Share(round, limit, |before|), log, res, limit)
    ensures res.end == Verdict(round, limit, |before|)
  {
    res, log := start, before;
    var ask := Ask(limit, res.replayed);
    assert seen + [] == seen;
    if ask <= 0 {
      res := res.(end := LimitReached);
    } else if round.NoMessages? {
      res := res.(end := Drained);
    } else if round.FetchFailed? {
      res := res.(end := BrokerFailed);
    } else {
      var got := Delivered(round, ask);
      var part;
      res, part := ReplayBatch(got, start);
      AckCount(got, part);
      Join(seen, before, got, part);
      log := before + part;
      if res.failed > 0 {
        res := res.(end := RecordFailed);
      } else if round.failed {
        res := res.(end := BrokerFailed);
      } else if got == [] {
        res := res.(end := Drained);
      }
    }
  }

  /** Replay over a script of fetch answers; the context ends where the script does. The log says
      what became of every record taken from the stream. */
  method Replay(limit: int, rounds: seq<Round>) returns (res: Result, log: seq<Entry>)
    ensures Kept(Taken(rounds, limit, 0), log, res, limit)
    ensures res.end == Answer(rounds, limit, 0)
  {
    res, log := Result(0, 0, ContextDone), [];
    ghost var seen, total, answer := [], Taken(rounds, limit, 0), Answer(rounds, limit, 0);
    for i := 0 to |rounds|
      invariant Kept(seen, log, res, limit) && res.end == ContextDone
      invariant total == seen + Taken(rounds[i..], limit, |seen|)
      invariant answer == Answer(rounds[i..], limit, |seen|)
    {
      TakenStep(rounds, limit, i, seen, |seen|);
      res, log := ReplayRound(rounds[i], limit, seen, log, res);
      if res.end != ContextDone {
        return;
      }
      seen := seen + Share(rounds[i], limit, |seen|);
    }
    assert seen + [] == seen;
  }
}
