/**
 * From the source to current_orders: the watermark protocol, the order topic and the stream
 * composed. The topic holds what the publisher appended, in any order and any batches,
 * mixed with records of other origin that the validity rule keeps out of history.
 */
module Publication {
  import opened Prelude
  import opened Watermarks
  import opened WatermarkRuns
  import opened OrderEvents
  import opened OrderStream
  import opened Publisher
  import StreamAudit

  /** `p` is the parsed form of a record the publisher produced for `v`. */
  ghost predicate RecordOf(p: Parsed, v: Version) {
    exists row: KafkaRow :: Publishes(row, v) && p == ParseKafkaEvent(row)
  }

  ghost predicate Records(p: Parsed, published: seq<Version>) {
    exists v :: v in published && RecordOf(p, v)
  }

  ghost predicate InBatches(p: Parsed, batches: seq<seq<Parsed>>, n: nat)
    requires n <= |batches|
  {
    exists i :: 0 <= i < n && p in batches[i]
  }

  ghost predicate Recorded(v: Version, batches: seq<seq<Parsed>>) {
    exists p :: InBatches(p, batches, |batches|) && RecordOf(p, v)
  }

  /** The micro-batches read the whole topic: each published version, and nothing else that is valid. */
  ghost predicate ReadsTopic(batches: seq<seq<Parsed>>, published: seq<Version>) {
    && (forall p :: InBatches(p, batches, |batches|) ==> !ToHistory(p) || Records(p, published))
    && (forall v :: v in published ==> Recorded(v, batches))
    && (forall p, q :: InBatches(p, batches, |batches|) && InBatches(q, batches, |batches|) && p.coord == q.coord ==> p == q)
  }

  function VersionFact(v: Version): Fact { Fact(Uuid5(v.orderId, v.updatedAt), v) }

  ghost function PublishedFacts(published: seq<Version>): set<Fact> {
    set v | v in published :: VersionFact(v)
  }

  lemma {:induction false} RecordIsFact(p: Parsed, v: Version)
    requires RecordOf(p, v)
    ensures ToHistory(p) && FactOf(p) == VersionFact(v)
  {
    var row: KafkaRow :| Publishes(row, v) && p == ParseKafkaEvent(row);
    PublishedReachesHistory(row, v);
  }

  ghost predicate FactIn(f: Fact, batches: seq<seq<Parsed>>, n: nat)
    requires n <= |batches|
  {
    exists p :: InBatches(p, batches, n) && ToHistory(p) && FactOf(p) == f
  }

  lemma {:induction false} FactsAreInBatches(batches: seq<seq<Parsed>>, n: nat, f: Fact)
    requires n <= |batches|
    ensures f in FactsUpTo(batches, n) <==> FactIn(f, batches, n)
  {
    hide ToHistory;
    if n == 0 {
    } else {
      FactsAreInBatches(batches, n - 1, f);
      if FactIn(f, batches, n - 1) {
        var p :| InBatches(p, batches, n - 1) && ToHistory(p) && FactOf(p) == f;
        assert InBatches(p, batches, n);
      }
      if f in Facts(batches[n - 1]) {
        var p :| p in batches[n - 1] && ToHistory(p) && FactOf(p) == f;
        assert InBatches(p, batches, n);
      }
      if FactIn(f, batches, n) {
        var p :| InBatches(p, batches, n) && ToHistory(p) && FactOf(p) == f;
        var i :| 0 <= i < n && p in batches[i];
        assert i < n - 1 ==> InBatches(p, batches, n - 1);
      }
    }
  }

  lemma {:induction false} LettersAreInBatches(batches: seq<seq<Parsed>>, n: nat, d: DeadRow) returns (p: Parsed)
    requires n <= |batches| && d in LettersUpTo(batches, n)
    ensures InBatches(p, batches, n) && DeadRowOf(p) == d
  {
    hide ToDeadLetters;
    if d in Letters(batches[n - 1]) {
      p :| p in batches[n - 1] && ToDeadLetters(p) && DeadRowOf(p) == d;
    } else {
      p := LettersAreInBatches(batches, n - 1, d);
      var i :| 0 <= i < n - 1 && p in batches[i];
    }
  }

  /** A fully read topic has exactly the facts of the published versions. */
  lemma {:induction false} FactsOfTopic(batches: seq<seq<Parsed>>, published: seq<Version>)
    requires ReadsTopic(batches, published)
    ensures FactsUpTo(batches, |batches|) == PublishedFacts(published)
  {
    hide ToHistory, InBatches, RecordOf;
    forall f
      ensures f in FactsUpTo(batches, |batches|) <==> f in PublishedFacts(published)
    {
      FactsAreInBatches(batches, |batches|, f);
      if FactIn(f, batches, |batches|) {
        var p :| InBatches(p, batches, |batches|) && ToHistory(p) && FactOf(p) == f;
        assert Records(p, published);
        var v :| v in published && RecordOf(p, v);
        RecordIsFact(p, v);
      }
      if f in PublishedFacts(published) {
        var v :| v in published && VersionFact(v) == f;
        assert Recorded(v, batches);
        var p :| InBatches(p, batches, |batches|) && RecordOf(p, v);
        RecordIsFact(p, v);
      }
    }
  }

  /** What the stream assumes of its topic is what the watermark protocol guarantees. */
  lemma {:induction false} TopicIsGood(batches: seq<seq<Parsed>>, published: seq<Version>)
    requires ReadsTopic(batches, published) && OneContent(published)
    ensures GoodTopic(batches)
  {
    hide ToHistory, InBatches, RecordOf;
    FactsOfTopic(batches, published);
    var letters := LettersUpTo(batches, |batches|);
    forall a, b | a in letters && b in letters && a.id == b.id ensures a == b {
      var p := LettersAreInBatches(batches, |batches|, a);
      var q := LettersAreInBatches(batches, |batches|, b);
    }
  }

  /** The stream has processed all micro-batches and is at a checkpoint. */
  ghost predicate CaughtUp(states: seq<Stream>, writes: seq<nat>, batches: seq<seq<Parsed>>) {
    && StreamRun(states, writes, batches)
    && (|writes| > 0 ==> writes[|writes| - 1] == 4)
    && states[|writes|].checkpoint == |batches|
  }

  lemma {:induction false} CaughtUpHolds(
      states: seq<Stream>, writes: seq<nat>, batches: seq<seq<Parsed>>, published: seq<Version>)
    requires CaughtUp(states, writes, batches) && ReadsTopic(batches, published) && OneContent(published)
    ensures Holds(states[|writes|].tables, PublishedFacts(published), LettersUpTo(batches, |batches|))
  {
    hide ReadsTopic, OneContent, Attempt, HistoryHolds, CurrentHolds, GoodTopic;
    TopicIsGood(batches, published);
    FactsOfTopic(batches, published);
    if |writes| > 0 {
      CheckpointIsExact(states, writes, batches, |writes| - 1);
    } else {
      EmptyTopicHolds(batches);
    }
  }

  lemma {:induction false} EmptyTopicHolds(batches: seq<seq<Parsed>>)
    requires |batches| == 0
    ensures Holds(NO_ROWS, FactsUpTo(batches, |batches|), LettersUpTo(batches, |batches|))
  {
  }

  /** A current row whose version no other published version of the order exceeds. */
  lemma {:induction false} CurrentIsStaged(t: OrderStream.Tables, orders: Table, published: seq<Version>, k: Key)
    requires CurrentHolds(t.current, PublishedFacts(published)) && StagingLeads(orders, published)
    requires k in orders.staging && StagedVersion(k, orders.staging[k]) in published
    ensures var v := StagedVersion(k, orders.staging[k]);
      && CurrentRow(v, Uuid5(k, v.updatedAt)) in t.current
      && forall c :: c in t.current && c.version.orderId == k ==> c == CurrentRow(v, Uuid5(k, v.updatedAt))
  {
    hide StagedVersion;
    VersionTime(k, orders.staging[k]);
    var v := StagedVersion(k, orders.staging[k]);
    assert VersionFact(v) in PublishedFacts(published);
    assert HasRow(t.current, k);
    forall c | c in t.current && c.version.orderId == k ensures c == CurrentRow(v, Uuid5(k, v.updatedAt)) {
      assert Newest(PublishedFacts(published), Fact(c.latestEventId, c.version));
      assert v.updatedAt <= c.version.updatedAt by { assert VersionFact(v).version.orderId == k; }
    }
  }

  /**
   * Publication to projection. Once the stream has caught up, current_orders holds for every
   * staged order that the watermark has passed exactly the staged version.
   */
  lemma {:induction false} ProjectionShowsStaging(
      worlds: seq<World>, steps: seq<Step>, i: nat,
      states: seq<Stream>, writes: seq<nat>, batches: seq<seq<Parsed>>, k: Key)
    requires History(worlds, steps) && i < |worlds|
    requires CaughtUp(states, writes, batches) && ReadsTopic(batches, worlds[i].published)
    requires var orders := worlds[i].tables.orders;
      k in orders.staging && orders.staging[k].updatedAt <= orders.mark.watermark
    ensures var current := states[|writes|].tables.current;
      var v := StagedVersion(k, worlds[i].tables.orders.staging[k]);
      && CurrentRow(v, Uuid5(k, v.updatedAt)) in current
      && forall c :: c in current && c.version.orderId == k ==> c == CurrentRow(v, Uuid5(k, v.updatedAt))
  {
    hide StagedVersion, TablesInv, Next, Init, ReadsTopic, Attempt, HistoryHolds, CurrentHolds, StagingLeads, OneContent, RunInv;
    HistoryInv(worlds, steps, i);
    CaughtUpHolds(states, writes, batches, worlds[i].published);
    CurrentIsStaged(states[|writes|].tables, worlds[i].tables.orders, worlds[i].published, k);
  }

  /** `current` has a row of order `k`, and its rows of `k` have the key, time and columns of the source row. */
  ghost predicate ShowsOrder(current: set<CurrentRow>, k: Key, row: Row) {
    && (exists c :: c in current && c.version.orderId == k)
    && forall c :: c in current && c.version.orderId == k ==>
         && c.version.updatedAt == row.updatedAt
         && c.version.payload.customerId == Lookup(row.columns, "customer_id")
         && c.version.payload.status == Lookup(row.columns, "status")
         && c.version.payload.totalAmount == Lookup(row.columns, "total_amount")
         && c.version.payload.orderDate == Lookup(row.columns, "order_date")
         && c.latestEventId == Uuid5(k, row.updatedAt)
  }

  lemma {:induction false} CopyShowsOrder(current: set<CurrentRow>, k: Key, staged: Row, row: Row)
    requires Copies(Orders, staged, row)
    requires CurrentRow(StagedVersion(k, staged), Uuid5(k, staged.updatedAt)) in current
    requires forall c :: c in current && c.version.orderId == k ==>
      c == CurrentRow(StagedVersion(k, staged), Uuid5(k, staged.updatedAt))
    ensures ShowsOrder(current, k, row)
  {
    assert StagedVersion(k, staged).orderId == k;
  }

  /** End to end: a source order that the watermark has passed is in current_orders with its source columns. */
  lemma {:induction false} ProjectionShowsSource(
      worlds: seq<World>, steps: seq<Step>, i: nat,
      states: seq<Stream>, writes: seq<nat>, batches: seq<seq<Parsed>>, k: Key)
    requires History(worlds, steps) && i < |worlds|
    requires CaughtUp(states, writes, batches) && ReadsTopic(batches, worlds[i].published)
    requires var orders := worlds[i].tables.orders;
      k in orders.source && orders.source[k].updatedAt <= orders.mark.watermark
    ensures ShowsOrder(states[|writes|].tables.current, k, worlds[i].tables.orders.source[k])
  {
    var current := states[|writes|].tables.current;
    hide StagedVersion, Staged, ColumnMapping, Copies, Next, Init, ReadsTopic, CaughtUp, ShowsOrder;
    NoRowLost(worlds, steps, i, Orders, k);
    StagedKeepsTime(Orders, worlds[i].tables.orders.source, k);
    ProjectionShowsStaging(worlds, steps, i, states, writes, batches, k);
    var orders := worlds[i].tables.orders;
    VersionTime(k, orders.staging[k]);
    CopyShowsOrder(current, k, orders.staging[k], orders.source[k]);
  }

  /** order_events holds one row per version ever published, however often it was published. */
  lemma {:induction false} HistoryCountsVersions(
      worlds: seq<World>, steps: seq<Step>, i: nat,
      states: seq<Stream>, writes: seq<nat>, batches: seq<seq<Parsed>>)
    requires History(worlds, steps) && i < |worlds|
    requires CaughtUp(states, writes, batches) && ReadsTopic(batches, worlds[i].published)
    ensures var versions := set v | v in worlds[i].published;
      var history := states[|writes|].tables.history;
      && |history| == |versions|
      && forall v :: v in versions <==> exists h :: h in history && h.version == v
  {
    hide TablesInv, Next, Init, ReadsTopic, Attempt, HistoryHolds, CurrentHolds, StagingLeads, OneContent, RunInv;
    HistoryInv(worlds, steps, i);
    var published := worlds[i].published;
    CaughtUpHolds(states, writes, batches, published);
    OneRowPerFact(states[|writes|].tables.history, PublishedFacts(published));
    FactsCountVersions((set v | v in published), PublishedFacts(published));
    VersionsInHistory(states[|writes|].tables.history, published);
  }

  lemma {:induction false} FactsCountVersions(versions: set<Version>, facts: set<Fact>)
    requires facts == set v | v in versions :: VersionFact(v)
    ensures |facts| == |versions|
  {
    if versions == {} {
      assert facts == {};
    } else {
      var v :| v in versions;
      forall f | f in facts - {VersionFact(v)} ensures f in (set w | w in versions - {v} :: VersionFact(w)) {
        var w :| w in versions && VersionFact(w) == f;
      }
      assert facts - {VersionFact(v)} == set w | w in versions - {v} :: VersionFact(w);
      FactsCountVersions(versions - {v}, facts - {VersionFact(v)});
    }
  }

  lemma {:induction false} VersionsInHistory(history: set<HistoryRow>, published: seq<Version>)
    requires HistoryHolds(history, PublishedFacts(published))
    ensures forall v :: v in published <==> exists h :: h in history && h.version == v
  {
    forall v ensures v in published <==> exists h :: h in history && h.version == v {
      if v in published {
        assert VersionFact(v) in PublishedFacts(published);
        var h :| h in history && Fact(h.eventId, h.version) == VersionFact(v);
      }
      if h :| h in history && h.version == v {
        assert Fact(h.eventId, h.version) in PublishedFacts(published);
      }
    }
  }

  // ----- The producer's log is the topic -----

  /** Message by message the log announces the versions of the topic. */
  ghost predicate LogHolds(log: seq<Message>, published: seq<Version>) {
    |log| == |published| && forall i :: 0 <= i < |log| ==> Announces(log[i], published[i])
  }

  lemma {:induction false} AnnouncesOne(m: Message, v: Version, v': Version)
    requires Announces(m, v) && Announces(m, v')
    ensures v == v'
  {
  }

  /** What the log has gained announces rows that were selected. */
  lemma {:induction false} GainedIsSent(log: seq<Message>, log': seq<Message>, messages: seq<Message>, i: nat)
    requires log <= log' && Beyond(log, log') <= multiset(messages)
    requires |log| <= i < |log'|
    ensures log'[i] in messages
  {
    assert log'[|log|..][i - |log|] == log'[i];
    assert log'[i] in Beyond(log, log');
  }

  /** A publish task's appends, one by one, are steps of the world. */
  lemma {:induction false} AppendsAreSteps(
      worlds: seq<World>, steps: seq<Step>, log: seq<Message>, log': seq<Message>, messages: seq<Message>, rows: seq<Key>)
    returns (worlds': seq<World>, steps': seq<Step>)
    requires History(worlds, steps) && LogHolds(log, worlds[|steps|].published)
    requires AnnouncesAll(messages, worlds[|steps|].tables.orders.staging, rows)
    requires log <= log' && forall i :: |log| <= i < |log'| ==> log'[i] in messages
    ensures History(worlds', steps') && worlds <= worlds' && |worlds'| == |steps'| + 1
    ensures worlds'[|steps'|] == worlds[|steps|].(published := worlds'[|steps'|].published)
    ensures LogHolds(log', worlds'[|steps'|].published)
    decreases |log'| - |log|
  {
    if log == log' {
      worlds', steps' := worlds, steps;
    } else {
      hide Init, StagedVersion, Announces;
      var w, m := worlds[|steps|], log'[|log|];
      var i :| 0 <= i < |messages| && messages[i] == m;
      var version := StagedVersion(rows[i], w.tables.orders.staging[rows[i]]);
      var next := w.(published := w.published + [version]);
      assert Next(w, next, Publish(rows[i]));
      ExtendHistory(worlds, steps, next, Publish(rows[i]));
      worlds', steps' := AppendsAreSteps(worlds + [next], steps + [Publish(rows[i])], log + [m], log', messages, rows);
    }
  }

  /** After exact delivery every selected row's version is in the topic. */
  lemma {:induction false} SentIsPublished(
      log: seq<Message>, log': seq<Message>, messages: seq<Message>, published: seq<Version>, m: Message, v: Version)
    requires log <= log' && Beyond(log, log') == multiset(messages) && LogHolds(log', published)
    requires m in messages && Announces(m, v)
    ensures v in published
  {
    hide Announces;
    assert m in multiset(messages);
    assert m in log'[|log|..];
    var i :| 0 <= i < |log'| && log'[i] == m;
    AnnouncesOne(m, v, published[i]);
  }

  /**
   * The publish task inside a history. Whatever it does to the log is a number of publish
   * steps, and if it succeeds the run may finish its topic sink.
   */
  method PublishTask(
      mode: Mode, mark: Mark, staging: map<Key, Row>, cursor: seq<Key>, producer: Producer,
      ghost worlds: seq<World>, ghost steps: seq<Step>)
    returns (r: Result<nat, PublishError>, ghost worlds': seq<World>, ghost steps': seq<Step>)
    requires producer.Valid() && producer.sent == [] && producer.base == producer.log
    requires History(worlds, steps) && LogHolds(producer.log, worlds[|steps|].published)
    requires staging == worlds[|steps|].tables.orders.staging && mark == worlds[|steps|].tables.orders.mark
    requires ReadBounds(TaskArgs(mode), Some(mark)).Success? ==>
      IsCursor(staging, mode, ReadBounds(TaskArgs(mode), Some(mark)).value.1, cursor)
    modifies producer
    ensures History(worlds', steps') && worlds <= worlds'
    ensures worlds'[|steps'|] == worlds[|steps|].(published := worlds'[|steps'|].published)
    ensures LogHolds(producer.log, worlds'[|steps'|].published)
    ensures r.Success? ==> Delivered(worlds'[|steps'|].tables.orders, mode, worlds'[|steps'|].published)
  {
    hide History, LogHolds, IsCursor, Delivered, AnnouncesAll, Announces, Beyond;
    ghost var before := producer.log;
    ghost var messages: seq<Message>;
    r, messages := Publisher.Publish(TaskArgs(mode), Some(mark), staging, cursor, producer);
    worlds', steps' := worlds, steps;
    if ReadBounds(TaskArgs(mode), Some(mark)).Success? {
      ghost var after := producer.log;
      forall i | |before| <= i < |after| ensures after[i] in messages {
        GainedIsSent(before, after, messages, i);
      }
      worlds', steps' := AppendsAreSteps(worlds, steps, before, after, messages, Limited(cursor, TaskArgs(mode).limit));
      ghost var published := worlds'[|steps'|].published;
      if r.Success? {
        forall m, v | m in messages && Announces(m, v) ensures v in published {
          SentIsPublished(before, after, messages, published, m, v);
        }
        SuccessDelivers(worlds'[|steps'|].tables.orders, mode, cursor, messages, published);
      }
    }
  }

  /** `p` is a parsed record of the message `m`. */
  ghost predicate ParsedFrom(p: Parsed, m: Message) {
    exists row: KafkaRow :: row.messageKey == m.key && row.envelope == Some(m.event) && p == ParseKafkaEvent(row)
  }

  ghost predicate ParsedFromLog(p: Parsed, log: seq<Message>) {
    exists m :: m in log && ParsedFrom(p, m)
  }

  ghost predicate ReadFrom(m: Message, batches: seq<seq<Parsed>>) {
    exists p :: InBatches(p, batches, |batches|) && ParsedFrom(p, m)
  }

  /** The micro-batches hold each message of the log, and otherwise only records that are not valid. */
  ghost predicate ReadsLog(batches: seq<seq<Parsed>>, log: seq<Message>) {
    && (forall p :: InBatches(p, batches, |batches|) ==> !ToHistory(p) || ParsedFromLog(p, log))
    && (forall m :: m in log ==> ReadFrom(m, batches))
    && (forall p, q ::
          InBatches(p, batches, |batches|) && InBatches(q, batches, |batches|) && p.coord == q.coord ==> p == q)
  }

  lemma {:induction false} MessageIsRecord(p: Parsed, m: Message, v: Version)
    requires ParsedFrom(p, m) && Announces(m, v)
    ensures RecordOf(p, v)
  {
    var row: KafkaRow :| row.messageKey == m.key && row.envelope == Some(m.event) && p == ParseKafkaEvent(row);
    assert Publishes(row, v);
  }

  /** Batches that read the producer's log read the topic of the world. */
  lemma {:induction false} LogIsTopic(batches: seq<seq<Parsed>>, log: seq<Message>, published: seq<Version>)
    requires ReadsLog(batches, log) && LogHolds(log, published)
    ensures ReadsTopic(batches, published)
  {
    hide ToHistory, InBatches, ParsedFrom, RecordOf, Announces;
    forall p | InBatches(p, batches, |batches|) && ToHistory(p) ensures Records(p, published) {
      assert ParsedFromLog(p, log);
      var m :| m in log && ParsedFrom(p, m);
      var i :| 0 <= i < |log| && log[i] == m;
      MessageIsRecord(p, m, published[i]);
      assert published[i] in published;
    }
    forall v | v in published ensures Recorded(v, batches) {
      var i :| 0 <= i < |published| && published[i] == v;
      assert log[i] in log;
      assert ReadFrom(log[i], batches);
      var p :| InBatches(p, batches, |batches|) && ParsedFrom(p, log[i]);
      MessageIsRecord(p, log[i], v);
    }
  }

  /** The whole chain, from the source row through the producer's log to current_orders. */
  lemma {:induction false} SourceToProjection(
      worlds: seq<World>, steps: seq<Step>, i: nat, log: seq<Message>,
      states: seq<Stream>, writes: seq<nat>, batches: seq<seq<Parsed>>, k: Key)
    requires History(worlds, steps) && i < |worlds| && LogHolds(log, worlds[i].published)
    requires CaughtUp(states, writes, batches) && ReadsLog(batches, log)
    requires var orders := worlds[i].tables.orders;
      k in orders.source && orders.source[k].updatedAt <= orders.mark.watermark
    ensures ShowsOrder(states[|writes|].tables.current, k, worlds[i].tables.orders.source[k])
  {
    hide LogHolds, ReadsLog, ReadsTopic, History, CaughtUp, ShowsOrder;
    LogIsTopic(batches, log, worlds[i].published);
    ProjectionShowsSource(worlds, steps, i, states, writes, batches, k);
  }

  lemma {:induction false} HistoryRowOfMessage(p: Parsed, m: Message, v: Version)
    requires ParsedFrom(p, m) && Announces(m, v)
    ensures ToHistory(p)
    ensures var h := HistoryRowOf(p);
      && h.version == v && h.eventId == Uuid5(v.orderId, v.updatedAt)
      && h.messageKey == v.orderId && h.occurredAt == v.payload.orderDate && h.producedAt.Some?
  {
  }

  /**
   * At every crash point of a stream over the producer's log each history row tells of a published
   * version: its message key is the order, its event time the order date, its id that of the version.
   */
  lemma {:induction false} HistoryTellsVersions(
      log: seq<Message>, published: seq<Version>,
      states: seq<Stream>, writes: seq<nat>, batches: seq<seq<Parsed>>, i: nat, h: HistoryRow)
    requires StreamRun(states, writes, batches) && i < |states|
    requires ReadsLog(batches, log) && LogHolds(log, published)
    requires h in states[i].tables.history
    ensures h.version in published
    ensures h.eventId == Uuid5(h.version.orderId, h.version.updatedAt) && h.messageKey == h.version.orderId
    ensures h.occurredAt == h.version.payload.orderDate && h.producedAt.Some?
  {
    hide StreamRun, ToHistory, ParsedFrom, Announces, InBatches;
    StreamAudit.HistoryHasSources(states, writes, batches, i, h);
    var p := SourceOf(batches, states[i].checkpoint + 1, h);
    assert ParsedFromLog(p, log);
    var m :| m in log && ParsedFrom(p, m);
    var j :| 0 <= j < |log| && log[j] == m;
    HistoryRowOfMessage(p, m, published[j]);
  }

  lemma {:induction false} SourceOf(batches: seq<seq<Parsed>>, n: nat, h: HistoryRow) returns (p: Parsed)
    requires StreamAudit.HasSource(h, batches, n)
    ensures InBatches(p, batches, |batches|) && ToHistory(p) && h == HistoryRowOf(p)
  {
    hide ToHistory;
    var b;
    b, p :| 0 <= b < |batches| && b < n && p in batches[b] && ToHistory(p) && h == HistoryRowOf(p);
  }
}
