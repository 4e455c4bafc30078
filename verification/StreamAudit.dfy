/**
 * The stream against the raw Kafka records: which record each row of order_events and each
 * dead letter comes from, and what of the record it keeps.
 */
module StreamAudit {
  import opened Prelude
  import opened OrderEvents
  import opened OrderStream

  /** Every condition of the validity rule holds. */
  predicate Usable(r: KafkaRow) {
    && r.envelope.Some?
    && var e := r.envelope.value;
       && e.eventId.Some? && e.eventType == Some("order.upserted") && e.schemaVersion == Some(1)
       && e.data.Some? && e.data.value.orderId.Some? && e.data.value.sourceUpdatedAt.Some?
  }

  /** Some condition of the validity rule is false, not merely unknown. */
  predicate Violated(r: KafkaRow) {
    || r.envelope.None?
    || var e := r.envelope.value;
       || e.eventId.None? || e.data.None? || e.data.value.orderId.None? || e.data.value.sourceUpdatedAt.None?
       || (e.eventType.Some? && e.eventType.value != "order.upserted")
       || (e.schemaVersion.Some? && e.schemaVersion.value != 1)
  }

  /** The micro-batches are the parsed Kafka records. */
  ghost predicate ParsedFrom(batches: seq<seq<Parsed>>, records: seq<seq<KafkaRow>>) {
    && |batches| == |records|
    && forall i :: 0 <= i < |records| ==>
         && |batches[i]| == |records[i]|
         && forall j :: 0 <= j < |records[i]| ==> batches[i][j] == ParseKafkaEvent(records[i][j])
  }

  /** `r` is one of the records of the first `n` batches. */
  ghost predicate ReadBy(records: seq<seq<KafkaRow>>, n: int, r: KafkaRow) {
    exists i :: 0 <= i < |records| && i < n && r in records[i]
  }

  lemma {:induction false} RoutingOfRecord(r: KafkaRow)
    ensures ToHistory(ParseKafkaEvent(r)) <==> Usable(r)
    ensures ToDeadLetters(ParseKafkaEvent(r)) <==> Violated(r)
  {
  }

  // ----- Dead letters -----

  /** `d` keeps the coordinates and the raw value of `r`. */
  ghost predicate IsLetterOf(d: DeadRow, r: KafkaRow) {
    d.id == r.coord && d.rawValue == r.rawValue
  }

  ghost predicate HasLetter(records: seq<KafkaRow>, d: DeadRow) {
    exists r :: r in records && Violated(r) && IsLetterOf(d, r)
  }

  lemma {:induction false} LettersOfBatch(batch: seq<Parsed>, records: seq<KafkaRow>, d: DeadRow)
    requires |batch| == |records| && forall j :: 0 <= j < |records| ==> batch[j] == ParseKafkaEvent(records[j])
    ensures d in Letters(batch) <==> HasLetter(records, d)
  {
    hide Violated, ToDeadLetters;
    if d in Letters(batch) {
      var p :| p in batch && ToDeadLetters(p) && DeadRowOf(p) == d;
      var j :| 0 <= j < |batch| && batch[j] == p;
      RoutingOfRecord(records[j]);
      assert records[j] in records;
    }
    if r :| r in records && Violated(r) && IsLetterOf(d, r) {
      var j :| 0 <= j < |records| && records[j] == r;
      RoutingOfRecord(r);
      assert batch[j] in batch;
    }
  }

  lemma {:induction false} LettersOfRecords(batches: seq<seq<Parsed>>, records: seq<seq<KafkaRow>>, n: nat, d: DeadRow)
    requires ParsedFrom(batches, records) && n <= |batches|
    ensures d in LettersUpTo(batches, n) <==> exists i :: 0 <= i < n && HasLetter(records[i], d)
  {
    hide HasLetter, Letters;
    if n == 0 {
    } else {
      LettersOfRecords(batches, records, n - 1, d);
      LettersOfBatch(batches[n - 1], records[n - 1], d);
    }
  }

  /**
   * At a checkpoint the dead letters are exactly the consumed records that violate the rule, each
   * with its coordinates and its raw value, however often a batch was attempted before.
   */
  lemma {:induction false} DeadLettersAreRecords(
      states: seq<Stream>, writes: seq<nat>, batches: seq<seq<Parsed>>, records: seq<seq<KafkaRow>>, i: nat, d: DeadRow)
    requires GoodTopic(batches) && StreamRun(states, writes, batches) && ParsedFrom(batches, records)
    requires i < |writes| && writes[i] == 4
    ensures d in states[i + 1].tables.dead <==>
      exists r :: ReadBy(records, states[i + 1].checkpoint, r) && Violated(r) && IsLetterOf(d, r)
  {
    hide GoodTopic, HistoryHolds, CurrentHolds, LettersUpTo, FactsUpTo, Attempt, Violated, IsLetterOf;
    CheckpointIsExact(states, writes, batches, i);
    var n := states[i + 1].checkpoint;
    LettersOfRecords(batches, records, n, d);
    if r :| ReadBy(records, n, r) && Violated(r) && IsLetterOf(d, r) {
      var b :| 0 <= b < |records| && b < n && r in records[b];
      assert HasLetter(records[b], d);
    }
    if b :| 0 <= b < n && HasLetter(records[b], d) {
      var r :| r in records[b] && Violated(r) && IsLetterOf(d, r);
      assert ReadBy(records, n, r);
    }
  }

  // ----- History -----

  /** `h` has the event id and the business columns of `r`. */
  ghost predicate IsEventOf(h: HistoryRow, r: KafkaRow)
    requires Usable(r)
  {
    var e := r.envelope.value;
    && Some(h.eventId) == e.eventId
    && Some(h.version.orderId) == e.data.value.orderId
    && Some(h.version.updatedAt) == e.data.value.sourceUpdatedAt
    && h.version.payload == e.data.value.payload
  }

  /** `h` keeps the coordinates, key, times, event id and business columns of `r`. */
  ghost predicate IsHistoryOf(h: HistoryRow, r: KafkaRow)
    requires Usable(r)
  {
    var e := r.envelope.value;
    && IsEventOf(h, r)
    && h.coord == r.coord && h.messageKey == r.messageKey
    && h.occurredAt == e.occurredAt && h.producedAt == e.producedAt
  }

  /** `h` is the history row of a parsed record of the first `n` batches. */
  ghost predicate HasSource(h: HistoryRow, batches: seq<seq<Parsed>>, n: int) {
    exists i, p :: 0 <= i < |batches| && i < n && p in batches[i] && ToHistory(p) && h == HistoryRowOf(p)
  }

  lemma {:induction false} AttemptAddsSources(s: Stream, s': Stream, batches: seq<seq<Parsed>>, writes: nat, h: HistoryRow)
    requires Attempt(s, s', batches, writes)
    requires h in s'.tables.history && h !in s.tables.history
    ensures HasSource(h, batches, s.checkpoint + 1)
    ensures s.checkpoint <= s'.checkpoint
  {
    hide WriteCurrent, WriteDead, IsLatest, IsLatestOf, ToHistory, HasEvent;
    var batch := batches[s.checkpoint];
    var kept, latest :| IsDedup(batch, kept) && IsLatestOf(batch, latest)
      && s'.tables == AfterWrites(s.tables, batch, kept, latest, writes);
    var p :| p in kept && h == HistoryRowOf(p);
    assert p in batches[s.checkpoint] && ToHistory(p);
  }

  lemma {:induction false} AttemptAdvances(s: Stream, s': Stream, batches: seq<seq<Parsed>>, writes: nat)
    requires Attempt(s, s', batches, writes)
    ensures s.checkpoint <= s'.checkpoint
  {
  }

  lemma {:induction false} StillRead(h: HistoryRow, batches: seq<seq<Parsed>>, n: int, n': int)
    requires HasSource(h, batches, n) && n <= n'
    ensures HasSource(h, batches, n')
  {
    hide ToHistory;
  }

  /** At every crash point each history row was made of one parsed record of the batches read so far. */
  lemma {:induction false} HistoryHasSources(
      states: seq<Stream>, writes: seq<nat>, batches: seq<seq<Parsed>>, i: nat, h: HistoryRow)
    requires StreamRun(states, writes, batches) && i < |states|
    requires h in states[i].tables.history
    ensures HasSource(h, batches, states[i].checkpoint + 1)
  {
    hide Attempt, HasSource;
    if i == 0 {
    } else {
      assert Attempt(states[i - 1], states[i - 1 + 1], batches, writes[i - 1]);
      AttemptAdvances(states[i - 1], states[i], batches, writes[i - 1]);
      if h in states[i - 1].tables.history {
        HistoryHasSources(states, writes, batches, i - 1, h);
      } else {
        AttemptAddsSources(states[i - 1], states[i], batches, writes[i - 1], h);
      }
      StillRead(h, batches, states[i - 1].checkpoint + 1, states[i].checkpoint + 1);
    }
  }

  lemma {:induction false} HistoryRowOfRecord(r: KafkaRow)
    requires ToHistory(ParseKafkaEvent(r))
    ensures Usable(r) && IsHistoryOf(HistoryRowOf(ParseKafkaEvent(r)), r)
  {
  }

  /** So it is that of a record read so far, with the record's coordinates, key, times and business columns. */
  lemma {:induction false} HistoryRowsAreRecords(
      states: seq<Stream>, writes: seq<nat>, batches: seq<seq<Parsed>>, records: seq<seq<KafkaRow>>, i: nat, h: HistoryRow)
    requires StreamRun(states, writes, batches) && ParsedFrom(batches, records) && i < |states|
    requires h in states[i].tables.history
    ensures exists r :: ReadBy(records, states[i].checkpoint + 1, r) && Usable(r) && IsHistoryOf(h, r)
  {
    hide Attempt, ToHistory, Usable, IsHistoryOf;
    HistoryHasSources(states, writes, batches, i, h);
    var n := states[i].checkpoint + 1;
    var b, p :| 0 <= b < |batches| && b < n && p in batches[b] && ToHistory(p) && h == HistoryRowOf(p);
    var j :| 0 <= j < |batches[b]| && batches[b][j] == p;
    HistoryRowOfRecord(records[b][j]);
    assert ReadBy(records, n, records[b][j]);
  }

  lemma {:induction false} FactsOfRecords(batches: seq<seq<Parsed>>, records: seq<seq<KafkaRow>>, n: nat, r: KafkaRow)
    requires ParsedFrom(batches, records) && n <= |batches|
    requires ReadBy(records, n, r) && Usable(r)
    ensures ToHistory(ParseKafkaEvent(r)) && FactOf(ParseKafkaEvent(r)) in FactsUpTo(batches, n)
  {
    RoutingOfRecord(r);
    hide Usable, ToHistory;
    var i :| 0 <= i < |records| && i < n && r in records[i];
    if i == n - 1 {
      var j :| 0 <= j < |records[i]| && records[i][j] == r;
      assert batches[i][j] in batches[i];
    } else {
      assert ReadBy(records, n - 1, r);
      FactsOfRecords(batches, records, n - 1, r);
    }
  }

  /** At a checkpoint every usable record that was consumed is in history, under its event id and with its version. */
  lemma {:induction false} UsableRecordsAreInHistory(
      states: seq<Stream>, writes: seq<nat>, batches: seq<seq<Parsed>>, records: seq<seq<KafkaRow>>, i: nat, r: KafkaRow)
    requires GoodTopic(batches) && StreamRun(states, writes, batches) && ParsedFrom(batches, records)
    requires i < |writes| && writes[i] == 4
    requires ReadBy(records, states[i + 1].checkpoint, r) && Usable(r)
    ensures exists h :: h in states[i + 1].tables.history && IsEventOf(h, r)
  {
    hide GoodTopic, CurrentHolds, LettersUpTo, FactsUpTo, ParsedFrom, Attempt, ReadBy, ToHistory;
    CheckpointIsExact(states, writes, batches, i);
    FactsOfRecords(batches, records, states[i + 1].checkpoint, r);
    var f := FactOf(ParseKafkaEvent(r));
    var h :| h in states[i + 1].tables.history && Fact(h.eventId, h.version) == f;
    FactIsEvent(h, r);
  }

  lemma {:induction false} FactIsEvent(h: HistoryRow, r: KafkaRow)
    requires Usable(r) && ToHistory(ParseKafkaEvent(r)) && Fact(h.eventId, h.version) == FactOf(ParseKafkaEvent(r))
    ensures IsEventOf(h, r)
  {
  }

  /** History and dead letters only ever grow: no attempt, finished or not, removes or changes a row. */
  lemma {:induction false} EvidenceIsAppendOnly(
      states: seq<Stream>, writes: seq<nat>, batches: seq<seq<Parsed>>, i: nat, j: nat)
    requires StreamRun(states, writes, batches) && i <= j < |states|
    ensures states[i].tables.history <= states[j].tables.history
    ensures states[i].tables.dead <= states[j].tables.dead
  {
    hide Attempt;
    if i < j {
      EvidenceIsAppendOnly(states, writes, batches, i, j - 1);
      assert Attempt(states[j - 1], states[j - 1 + 1], batches, writes[j - 1]);
      AttemptAppends(states[j - 1], states[j], batches, writes[j - 1]);
    }
  }

  lemma {:induction false} AttemptAppends(s: Stream, s': Stream, batches: seq<seq<Parsed>>, writes: nat)
    requires Attempt(s, s', batches, writes)
    ensures s.tables.history <= s'.tables.history && s.tables.dead <= s'.tables.dead
  {
    hide WriteCurrent, IsLatest, IsLatestOf, ToHistory, HasEvent;
  }
}
