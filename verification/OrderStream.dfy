/**
 * spark/jobs/order_stream.py: one micro-batch into three Iceberg tables written one after
 * another, with the checkpoint last. Tables are sets of rows: all rows of a batch differ
 * in their Kafka coordinates.
 */
module OrderStream {
  import opened Prelude
  import opened OrderEvents

  /** A row of order_events: what happened, and the audit columns of the record that told so. */
  datatype HistoryRow = HistoryRow(
    eventId: EventId, version: Version, coord: Coord, messageKey: string,
    occurredAt: Option<string>, producedAt: Option<int>)

  /** A row of current_orders without its apply time. */
  datatype CurrentRow = CurrentRow(version: Version, latestEventId: EventId)

  /** A row of dead_letter_events; the id is SHA-256 of the coordinates, taken as injective. */
  datatype DeadRow = DeadRow(id: Coord, rawValue: string)

  datatype Tables = Tables(history: set<HistoryRow>, current: set<CurrentRow>, dead: set<DeadRow>)

  const NO_ROWS := Tables({}, {}, {})

  function HistoryRowOf(p: Parsed): HistoryRow
    requires ToHistory(p)
  {
    HistoryRow(p.eventId.value, VersionOf(p), p.coord, p.messageKey, p.occurredAt, p.producedAt)
  }

  function CurrentRowOf(p: Parsed): CurrentRow
    requires ToHistory(p)
  {
    CurrentRow(VersionOf(p), p.eventId.value)
  }

  // ----- The choices Spark is free to make -----

  ghost predicate HasEvent(kept: set<Parsed>, id: Option<EventId>) {
    exists q :: q in kept && q.eventId == id
  }

  /** dropDuplicates(["event_id"]): some representative of each event id among the valid rows. */
  ghost predicate IsDedup(batch: seq<Parsed>, kept: set<Parsed>) {
    && (forall p :: p in kept ==> p in batch && ToHistory(p))
    && (forall p :: p in batch && ToHistory(p) ==> HasEvent(kept, p.eventId))
    && (forall p, q :: p in kept && q in kept && p.eventId == q.eventId ==> p == q)
  }

  /** ORDER BY source_updated_at DESC, offset DESC: `q` does not come strictly before `p`. */
  predicate Precedes(p: Parsed, q: Parsed)
    requires ToHistory(p) && ToHistory(q)
  {
    var v, w := p.sourceUpdatedAt.value, q.sourceUpdatedAt.value;
    v > w || (v == w && p.coord.offset >= q.coord.offset)
  }

  ghost predicate HasOrder(latest: set<Parsed>, id: Option<OrderId>) {
    exists p :: p in latest && p.orderId == id
  }

  /** row_number() = 1 over the window: one first row per order. */
  ghost predicate IsLatest(kept: set<Parsed>, latest: set<Parsed>)
    requires forall p :: p in kept ==> ToHistory(p)
  {
    && latest <= kept
    && (forall p, q :: p in latest && q in kept && p.orderId == q.orderId ==> Precedes(p, q))
    && (forall q :: q in kept ==> HasOrder(latest, q.orderId))
    && (forall p, q :: p in latest && q in latest && p.orderId == q.orderId ==> p == q)
  }

  /**
   * The newest row per order of some deduplicated batch. The deduplicated rows are not
   * cached, so this sink may see other representatives than the history sink did.
   */
  ghost predicate IsLatestOf(batch: seq<Parsed>, latest: set<Parsed>)
    ensures IsLatestOf(batch, latest) ==> forall p :: p in latest ==> ToHistory(p)
  {
    exists kept :: IsDedup(batch, kept) && IsLatest(kept, latest)
  }

  // ----- The three writes -----

  function HistoryUpdates(kept: set<Parsed>): set<HistoryRow>
    requires forall p :: p in kept ==> ToHistory(p)
  {
    set p | p in kept :: HistoryRowOf(p)
  }

  function CurrentUpdates(latest: set<Parsed>): set<CurrentRow>
    requires forall p :: p in latest ==> ToHistory(p)
  {
    set p | p in latest :: CurrentRowOf(p)
  }

  /** Append to an empty table, else MERGE ... WHEN NOT MATCHED THEN INSERT. */
  function WriteHistory(history: set<HistoryRow>, updates: set<HistoryRow>): set<HistoryRow> {
    if history == {} then updates
    else history + set u | u in updates && forall t :: t in history ==> t.eventId != u.eventId
  }

  /** Append to an empty table, else MERGE replacing rows that are not newer than the update. */
  function WriteCurrent(current: set<CurrentRow>, updates: set<CurrentRow>): set<CurrentRow> {
    if current == {} then updates
    else
      (set t | t in current && !exists u :: u in updates && Replaces(u, t)) +
      (set u | u in updates && forall t :: t in current && SameOrder(u, t) ==> Replaces(u, t))
  }

  predicate SameOrder(u: CurrentRow, t: CurrentRow) { u.version.orderId == t.version.orderId }

  predicate Replaces(u: CurrentRow, t: CurrentRow) {
    SameOrder(u, t) && u.version.updatedAt >= t.version.updatedAt
  }

  function DeadRowOf(p: Parsed): DeadRow { DeadRow(p.coord, p.rawValue) }

  function WriteDead(dead: set<DeadRow>, batch: seq<Parsed>): set<DeadRow> {
    var updates := set p | p in batch && ToDeadLetters(p) :: DeadRowOf(p);
    if dead == {} then updates
    else dead + set u | u in updates && forall t :: t in dead ==> t.id != u.id
  }

  /** The tables after the first `writes` of the three sink commits. */
  function AfterWrites(t: Tables, batch: seq<Parsed>, kept: set<Parsed>, latest: set<Parsed>, writes: nat): Tables
    requires forall p :: p in kept ==> ToHistory(p)
    requires forall p :: p in latest ==> ToHistory(p)
  {
    Tables(
      if writes >= 1 then WriteHistory(t.history, HistoryUpdates(kept)) else t.history,
      if writes >= 2 then WriteCurrent(t.current, CurrentUpdates(latest)) else t.current,
      if writes >= 3 then WriteDead(t.dead, batch) else t.dead)
  }

  // ----- What the tables mean -----

  /** A version together with the event id that announced it. */
  datatype Fact = Fact(eventId: EventId, version: Version)

  function FactOf(p: Parsed): Fact
    requires ToHistory(p)
  {
    Fact(p.eventId.value, VersionOf(p))
  }

  function Facts(batch: seq<Parsed>): set<Fact> {
    set p | p in batch && ToHistory(p) :: FactOf(p)
  }

  function Letters(batch: seq<Parsed>): set<DeadRow> {
    set p | p in batch && ToDeadLetters(p) :: DeadRowOf(p)
  }

  /** An event id names one order version, and a version has one content. */
  ghost predicate Identified(facts: set<Fact>) {
    forall f, g :: f in facts && g in facts ==>
      && (f.eventId == g.eventId ==> f == g)
      && (f.version.orderId == g.version.orderId && f.version.updatedAt == g.version.updatedAt ==> f == g)
  }

  /** One record per Kafka coordinate. */
  ghost predicate DistinctLetters(letters: set<DeadRow>) {
    forall a, b :: a in letters && b in letters && a.id == b.id ==> a == b
  }

  /** History has exactly one row per fact. */
  ghost predicate HistoryHolds(history: set<HistoryRow>, facts: set<Fact>) {
    && (forall h :: h in history ==> Fact(h.eventId, h.version) in facts)
    && (forall f :: f in facts ==> exists h :: h in history && Fact(h.eventId, h.version) == f)
    && (forall h, h' :: h in history && h' in history && h.eventId == h'.eventId ==> h == h')
  }

  ghost predicate Newest(facts: set<Fact>, f: Fact) {
    f in facts && forall g :: g in facts && g.version.orderId == f.version.orderId ==>
      g.version.updatedAt <= f.version.updatedAt
  }

  ghost predicate HasRow(current: set<CurrentRow>, id: OrderId) {
    exists c :: c in current && c.version.orderId == id
  }

  /** Current state has exactly one row per order: the newest fact about it. */
  ghost predicate CurrentHolds(current: set<CurrentRow>, facts: set<Fact>) {
    && (forall c :: c in current ==> Newest(facts, Fact(c.latestEventId, c.version)))
    && (forall f :: f in facts ==> HasRow(current, f.version.orderId))
    && (forall c, c' :: c in current && c' in current && SameOrder(c, c') ==> c == c')
  }

  ghost predicate Holds(t: Tables, facts: set<Fact>, letters: set<DeadRow>) {
    HistoryHolds(t.history, facts) && CurrentHolds(t.current, facts) && t.dead == letters
  }

  /** The business columns of the three tables are determined by the facts and letters. */
  lemma {:induction false} HoldsIsUnique(t: Tables, t': Tables, facts: set<Fact>, letters: set<DeadRow>)
    requires Identified(facts) && Holds(t, facts, letters) && Holds(t', facts, letters)
    ensures (set h | h in t.history :: Fact(h.eventId, h.version)) == (set h | h in t'.history :: Fact(h.eventId, h.version))
    ensures t.current == t'.current
    ensures t.dead == t'.dead
  {
    assert (set h | h in t.history :: Fact(h.eventId, h.version)) == facts;
    assert (set h | h in t'.history :: Fact(h.eventId, h.version)) == facts;
    CurrentIsUnique(t.current, t'.current, facts);
    CurrentIsUnique(t'.current, t.current, facts);
  }

  lemma {:induction false} CurrentIsUnique(current: set<CurrentRow>, current': set<CurrentRow>, facts: set<Fact>)
    requires Identified(facts) && CurrentHolds(current, facts) && CurrentHolds(current', facts)
    ensures current <= current'
  {
    forall c | c in current ensures c in current' {
      var f := Fact(c.latestEventId, c.version);
      assert Newest(facts, f);
      assert HasRow(current', f.version.orderId);
      var c' :| c' in current' && c'.version.orderId == f.version.orderId;
      assert Newest(facts, Fact(c'.latestEventId, c'.version));
    }
  }

  // ----- Each write adds the batch, and adding it again changes nothing -----

  lemma {:induction false} DedupHolds(batch: seq<Parsed>, kept: set<Parsed>)
    requires IsDedup(batch, kept) && Identified(Facts(batch))
    ensures HistoryHolds(HistoryUpdates(kept), Facts(batch))
  {
    var updates := HistoryUpdates(kept);
    forall f | f in Facts(batch) ensures exists h :: h in updates && Fact(h.eventId, h.version) == f {
      var q := KeptFor(batch, kept, f);
      assert HistoryRowOf(q) in updates;
    }
    forall h | h in updates ensures Fact(h.eventId, h.version) in Facts(batch) {
      var p :| p in kept && h == HistoryRowOf(p);
      assert FactOf(p) == Fact(h.eventId, h.version);
    }
  }

  lemma {:induction false} KeptIsValid(batch: seq<Parsed>, kept: set<Parsed>)
    requires IsDedup(batch, kept)
    ensures forall p :: p in kept ==> p in batch && ToHistory(p)
  {
    hide ToHistory;
  }

  lemma {:induction false} LatestHolds(batch: seq<Parsed>, kept: set<Parsed>, latest: set<Parsed>)
    requires IsDedup(batch, kept) && Identified(Facts(batch)) && IsLatest(kept, latest)
    ensures CurrentHolds(CurrentUpdates(latest), Facts(batch))
  {
    hide IsValid, IsDedup, HasEvent;
    assert forall p :: p in kept ==> p in batch && ToHistory(p) by { KeptIsValid(batch, kept); }
    var updates, facts := CurrentUpdates(latest), Facts(batch);
    forall c | c in updates ensures Newest(facts, Fact(c.latestEventId, c.version)) {
      var p :| p in latest && c == CurrentRowOf(p);
      assert FactOf(p) in facts;
      forall g | g in facts && g.version.orderId == c.version.orderId
        ensures g.version.updatedAt <= c.version.updatedAt
      {
        var q := KeptFor(batch, kept, g);
        Routing(p);
        Routing(q);
        assert Precedes(p, q);
      }
    }
    forall f | f in facts ensures HasRow(updates, f.version.orderId) {
      var q := KeptFor(batch, kept, f);
      assert HasOrder(latest, q.orderId);
      var p :| p in latest && p.orderId == q.orderId;
      assert CurrentRowOf(p) in updates;
    }
  }

  lemma {:induction false} KeptFor(batch: seq<Parsed>, kept: set<Parsed>, f: Fact) returns (q: Parsed)
    requires IsDedup(batch, kept) && Identified(Facts(batch)) && f in Facts(batch)
    ensures q in kept && ToHistory(q) && FactOf(q) == f
  {
    var p :| p in batch && ToHistory(p) && FactOf(p) == f;
    assert HasEvent(kept, p.eventId);
    q :| q in kept && q.eventId == p.eventId;
    assert FactOf(q) in Facts(batch);
  }

  lemma {:induction false} HistoryStep(
      history: set<HistoryRow>, facts: set<Fact>, updates: set<HistoryRow>, added: set<Fact>)
    requires HistoryHolds(history, facts) && HistoryHolds(updates, added) && Identified(facts + added)
    ensures HistoryHolds(WriteHistory(history, updates), facts + added)
  {
    var history' := WriteHistory(history, updates);
    forall f | f in facts + added ensures exists h :: h in history' && Fact(h.eventId, h.version) == f {
      if f in facts {
        var h :| h in history && Fact(h.eventId, h.version) == f;
        assert h in history';
      } else {
        var u :| u in updates && Fact(u.eventId, u.version) == f;
        assert forall t :: t in history && t.eventId == u.eventId ==> Fact(t.eventId, t.version) in facts;
        assert u in history';
      }
    }
  }

  lemma {:induction false} CurrentStep(
      current: set<CurrentRow>, facts: set<Fact>, updates: set<CurrentRow>, added: set<Fact>)
    requires CurrentHolds(current, facts) && CurrentHolds(updates, added) && Identified(facts + added)
    ensures CurrentHolds(WriteCurrent(current, updates), facts + added)
  {
    var current' := WriteCurrent(current, updates);
    forall c | c in current' ensures Newest(facts + added, Fact(c.latestEventId, c.version)) {
      RowIsNewest(current, facts, updates, added, c);
    }
    forall f | f in facts + added ensures HasRow(current', f.version.orderId) {
      OrderHasRow(current, facts, updates, added, f);
    }
    forall c, c' | c in current' && c' in current' && SameOrder(c, c') ensures c == c' {
      RowIsUnique(current, facts, updates, added, c, c');
    }
  }

  lemma {:induction false} RowIsNewest(
      current: set<CurrentRow>, facts: set<Fact>, updates: set<CurrentRow>, added: set<Fact>, c: CurrentRow)
    requires CurrentHolds(current, facts) && CurrentHolds(updates, added)
    requires c in WriteCurrent(current, updates)
    ensures Newest(facts + added, Fact(c.latestEventId, c.version))
  {
    forall g | g in facts + added && g.version.orderId == c.version.orderId
      ensures g.version.updatedAt <= c.version.updatedAt
    {
      if g in facts {
        assert HasRow(current, g.version.orderId);
        var t :| t in current && t.version.orderId == g.version.orderId;
        assert g.version.updatedAt <= t.version.updatedAt;
      }
      if g in added {
        assert HasRow(updates, g.version.orderId);
        var u :| u in updates && u.version.orderId == g.version.orderId;
        assert g.version.updatedAt <= u.version.updatedAt;
      }
    }
  }

  lemma {:induction false} OrderHasRow(
      current: set<CurrentRow>, facts: set<Fact>, updates: set<CurrentRow>, added: set<Fact>, f: Fact)
    requires CurrentHolds(current, facts) && CurrentHolds(updates, added) && f in facts + added
    ensures HasRow(WriteCurrent(current, updates), f.version.orderId)
  {
    var current' := WriteCurrent(current, updates);
    var id := f.version.orderId;
    if HasRow(updates, id) {
      var u :| u in updates && u.version.orderId == id;
      if u !in current' {
        var t :| t in current && SameOrder(u, t) && !Replaces(u, t);
        assert t in current';
      }
    } else {
      assert HasRow(current, id);
      var t :| t in current && t.version.orderId == id;
      assert t in current';
    }
  }

  lemma {:induction false} RowIsUnique(
      current: set<CurrentRow>, facts: set<Fact>, updates: set<CurrentRow>, added: set<Fact>, c: CurrentRow, c': CurrentRow)
    requires CurrentHolds(current, facts) && CurrentHolds(updates, added) && Identified(facts + added)
    requires c in WriteCurrent(current, updates) && c' in WriteCurrent(current, updates) && SameOrder(c, c')
    ensures c == c'
  {
    RowIsNewest(current, facts, updates, added, c);
    RowIsNewest(current, facts, updates, added, c');
  }

  lemma {:induction false} DeadStep(letters: set<DeadRow>, batch: seq<Parsed>)
    requires DistinctLetters(letters + Letters(batch))
    ensures WriteDead(letters, batch) == letters + Letters(batch)
  {
    var dead' := WriteDead(letters, batch);
    forall u | u in Letters(batch) ensures u in dead' {
      if t :| t in letters && t.id == u.id {
        assert t == u;
      }
    }
  }

  // ----- Runs: crashes between the writes, replays of the same range -----

  /** The checkpoint counts finished micro-batches; Spark fixes each batch's offset range before running it. */
  datatype Stream = Stream(tables: Tables, checkpoint: nat)

  /**
   * One invocation of merge_batch on the next range. It gets through `writes` sink commits;
   * with the fourth step the checkpoint is saved, before that the process dies.
   */
  ghost predicate Attempt(s: Stream, s': Stream, batches: seq<seq<Parsed>>, writes: nat) {
    && s.checkpoint < |batches|
    && writes <= 4
    && s'.checkpoint == s.checkpoint + (if writes == 4 then 1 else 0)
    && exists kept, latest ::
         && IsDedup(batches[s.checkpoint], kept) && IsLatestOf(batches[s.checkpoint], latest)
         && s'.tables == AfterWrites(s.tables, batches[s.checkpoint], kept, latest, writes)
  }

  ghost predicate StreamRun(states: seq<Stream>, writes: seq<nat>, batches: seq<seq<Parsed>>) {
    && |states| == |writes| + 1
    && states[0] == Stream(NO_ROWS, 0)
    && forall i :: 0 <= i < |writes| ==> Attempt(states[i], states[i + 1], batches, writes[i])
  }

  /** All facts of the first `n` batches. */
  ghost function FactsUpTo(batches: seq<seq<Parsed>>, n: nat): set<Fact>
    requires n <= |batches|
  {
    if n == 0 then {} else FactsUpTo(batches, n - 1) + Facts(batches[n - 1])
  }

  ghost function LettersUpTo(batches: seq<seq<Parsed>>, n: nat): set<DeadRow>
    requires n <= |batches|
  {
    if n == 0 then {} else LettersUpTo(batches, n - 1) + Letters(batches[n - 1])
  }

  /** What the topic guarantees: event ids identify versions, coordinates identify records. */
  ghost predicate GoodTopic(batches: seq<seq<Parsed>>) {
    Identified(FactsUpTo(batches, |batches|)) && DistinctLetters(LettersUpTo(batches, |batches|))
  }

  lemma {:induction false} UpToMonotone(batches: seq<seq<Parsed>>, m: nat, n: nat)
    requires m <= n <= |batches|
    ensures FactsUpTo(batches, m) <= FactsUpTo(batches, n)
    ensures LettersUpTo(batches, m) <= LettersUpTo(batches, n)
  {
    if m == n {
    } else {
      UpToMonotone(batches, m, n - 1);
    }
  }

  function Ahead(ahead: bool): nat { if ahead then 1 else 0 }

  /** Each table is at the checkpoint or one batch ahead of it, and they run ahead in sink order. */
  ghost predicate AtOrAhead(s: Stream, batches: seq<seq<Parsed>>, h: bool, c: bool, d: bool) {
    && s.checkpoint <= |batches|
    && (h || c || d ==> s.checkpoint < |batches|)
    && (d ==> c) && (c ==> h)
    && HistoryHolds(s.tables.history, FactsUpTo(batches, s.checkpoint + Ahead(h)))
    && CurrentHolds(s.tables.current, FactsUpTo(batches, s.checkpoint + Ahead(c)))
    && s.tables.dead == LettersUpTo(batches, s.checkpoint + Ahead(d))
  }

  ghost predicate StreamInv(s: Stream, batches: seq<seq<Parsed>>) {
    exists h, c, d :: AtOrAhead(s, batches, h, c, d)
  }

  /** The batch's facts are absorbed once, however often they are added. */
  lemma {:induction false} AddedOnce(batches: seq<seq<Parsed>>, n: nat, ahead: bool)
    requires GoodTopic(batches) && n < |batches|
    ensures FactsUpTo(batches, n + Ahead(ahead)) + Facts(batches[n]) == FactsUpTo(batches, n + 1)
    ensures LettersUpTo(batches, n + Ahead(ahead)) + Letters(batches[n]) == LettersUpTo(batches, n + 1)
    ensures Identified(FactsUpTo(batches, n + 1)) && Identified(Facts(batches[n]))
    ensures DistinctLetters(LettersUpTo(batches, n + 1))
  {
    UpToMonotone(batches, n + 1, |batches|);
    assert Facts(batches[n]) <= FactsUpTo(batches, n + 1);
  }

  lemma {:induction false} HistoryAhead(
      history: set<HistoryRow>, batches: seq<seq<Parsed>>, n: nat, kept: set<Parsed>, ahead: bool)
    requires GoodTopic(batches) && n < |batches| && IsDedup(batches[n], kept)
    requires HistoryHolds(history, FactsUpTo(batches, n + Ahead(ahead)))
    ensures HistoryHolds(WriteHistory(history, HistoryUpdates(kept)), FactsUpTo(batches, n + Ahead(true)))
  {
    AddedOnce(batches, n, ahead);
    DedupHolds(batches[n], kept);
    HistoryStep(history, FactsUpTo(batches, n + Ahead(ahead)), HistoryUpdates(kept), Facts(batches[n]));
  }

  lemma {:induction false} CurrentAhead(
      current: set<CurrentRow>, batches: seq<seq<Parsed>>, n: nat, latest: set<Parsed>, ahead: bool)
    requires GoodTopic(batches) && n < |batches| && IsLatestOf(batches[n], latest)
    requires CurrentHolds(current, FactsUpTo(batches, n + Ahead(ahead)))
    ensures CurrentHolds(WriteCurrent(current, CurrentUpdates(latest)), FactsUpTo(batches, n + Ahead(true)))
  {
    hide CurrentHolds, WriteCurrent, CurrentUpdates, IsLatest, GoodTopic, FactsUpTo, Facts, Identified, ToHistory;
    var kept :| IsDedup(batches[n], kept) && IsLatest(kept, latest);
    AddedOnce(batches, n, ahead);
    LatestHolds(batches[n], kept, latest);
    CurrentStep(current, FactsUpTo(batches, n + Ahead(ahead)), CurrentUpdates(latest), Facts(batches[n]));
  }

  lemma {:induction false} DeadAhead(dead: set<DeadRow>, batches: seq<seq<Parsed>>, n: nat, ahead: bool)
    requires GoodTopic(batches) && n < |batches|
    requires dead == LettersUpTo(batches, n + Ahead(ahead))
    ensures WriteDead(dead, batches[n]) == LettersUpTo(batches, n + Ahead(true))
  {
    AddedOnce(batches, n, ahead);
    DeadStep(dead, batches[n]);
  }

  /** Writing the batch onto a table that is at the checkpoint or already ahead puts it ahead. */
  lemma {:induction false} WritesAhead(
      t: Tables, batches: seq<seq<Parsed>>, n: nat, kept: set<Parsed>, latest: set<Parsed>, writes: nat,
      h: bool, c: bool, d: bool)
    requires GoodTopic(batches) && n < |batches| && IsDedup(batches[n], kept) && IsLatestOf(batches[n], latest)
    requires AtOrAhead(Stream(t, n), batches, h, c, d)
    ensures AtOrAhead(Stream(AfterWrites(t, batches[n], kept, latest, writes), n), batches,
                      h || writes >= 1, c || writes >= 2, d || writes >= 3)
  {
    hide HistoryHolds, CurrentHolds, GoodTopic, WriteHistory, WriteCurrent, IsLatestOf, FactsUpTo, LettersUpTo;
    if writes >= 1 { HistoryAhead(t.history, batches, n, kept, h); }
    if writes >= 2 { CurrentAhead(t.current, batches, n, latest, c); }
    if writes >= 3 { DeadAhead(t.dead, batches, n, d); }
  }

  lemma {:induction false} AttemptInv(
      s: Stream, s': Stream, batches: seq<seq<Parsed>>, writes: nat, h: bool, c: bool, d: bool)
    requires GoodTopic(batches) && AtOrAhead(s, batches, h, c, d) && Attempt(s, s', batches, writes)
    ensures writes < 4 ==> AtOrAhead(s', batches, h || writes >= 1, c || writes >= 2, d || writes >= 3)
    ensures writes == 4 ==> AtOrAhead(s', batches, false, false, false)
  {
    hide HistoryHolds, CurrentHolds, GoodTopic, WriteHistory, WriteCurrent, FactsUpTo, LettersUpTo;
    var batch := batches[s.checkpoint];
    var kept, latest :| IsDedup(batch, kept) && IsLatestOf(batch, latest)
      && s'.tables == AfterWrites(s.tables, batch, kept, latest, writes);
    WritesAhead(s.tables, batches, s.checkpoint, kept, latest, writes, h, c, d);
  }

  lemma {:induction false} StreamRunInv(states: seq<Stream>, writes: seq<nat>, batches: seq<seq<Parsed>>, i: nat)
    requires GoodTopic(batches) && StreamRun(states, writes, batches) && i < |states|
    ensures StreamInv(states[i], batches)
  {
    if i == 0 {
      assert AtOrAhead(states[0], batches, false, false, false);
    } else {
      StreamRunInv(states, writes, batches, i - 1);
      var h, c, d :| AtOrAhead(states[i - 1], batches, h, c, d);
      assert Attempt(states[i - 1], states[i - 1 + 1], batches, writes[i - 1]);
      AttemptInv(states[i - 1], states[i], batches, writes[i - 1], h, c, d);
    }
  }

  /**
   * Crash convergence: after any number of attempts that died after any of the writes, the
   * attempt that finishes leaves exactly the facts and letters of the consumed batches.
   */
  lemma {:induction false} CheckpointIsExact(states: seq<Stream>, writes: seq<nat>, batches: seq<seq<Parsed>>, i: nat)
    requires GoodTopic(batches) && StreamRun(states, writes, batches)
    requires i < |writes| && writes[i] == 4
    ensures states[i + 1].checkpoint <= |batches|
    ensures var n := states[i + 1].checkpoint;
      Holds(states[i + 1].tables, FactsUpTo(batches, n), LettersUpTo(batches, n))
  {
    hide HistoryHolds, CurrentHolds, GoodTopic, FactsUpTo, LettersUpTo, Attempt;
    assert Attempt(states[i], states[i + 1], batches, writes[i]);
    StreamRunInv(states, writes, batches, i);
    var h, c, d :| AtOrAhead(states[i], batches, h, c, d);
    AttemptInv(states[i], states[i + 1], batches, 4, h, c, d);
  }

  /** So two runs, one of them possibly without a crash, agree on the business state at a checkpoint. */
  lemma {:induction false} CrashConvergence(
      states: seq<Stream>, writes: seq<nat>, i: nat, states': seq<Stream>, writes': seq<nat>, j: nat, batches: seq<seq<Parsed>>)
    requires GoodTopic(batches) && StreamRun(states, writes, batches) && StreamRun(states', writes', batches)
    requires i < |writes| && writes[i] == 4 && j < |writes'| && writes'[j] == 4
    requires states[i + 1].checkpoint == states'[j + 1].checkpoint
    ensures var t, t' := states[i + 1].tables, states'[j + 1].tables;
      && (set h | h in t.history :: Fact(h.eventId, h.version)) == (set h | h in t'.history :: Fact(h.eventId, h.version))
      && t.current == t'.current
      && t.dead == t'.dead
  {
    CheckpointIsExact(states, writes, batches, i);
    CheckpointIsExact(states', writes', batches, j);
    var n := states[i + 1].checkpoint;
    UpToMonotone(batches, n, |batches|);
    HoldsIsUnique(states[i + 1].tables, states'[j + 1].tables, FactsUpTo(batches, n), LettersUpTo(batches, n));
  }

  /** At every crash point current_orders refers only to events that history already has. */
  lemma {:induction false} CurrentRefersToHistory(
      states: seq<Stream>, writes: seq<nat>, batches: seq<seq<Parsed>>, i: nat)
    requires GoodTopic(batches) && StreamRun(states, writes, batches) && i < |states|
    ensures forall c :: c in states[i].tables.current ==>
      exists h :: h in states[i].tables.history && h.eventId == c.latestEventId && h.version == c.version
  {
    hide HistoryHolds, CurrentHolds, GoodTopic, FactsUpTo, LettersUpTo;
    StreamRunInv(states, writes, batches, i);
    var s := states[i];
    var h, c, d :| AtOrAhead(s, batches, h, c, d);
    UpToMonotone(batches, s.checkpoint + Ahead(c), s.checkpoint + Ahead(h));
    RowsHaveHistory(s.tables, FactsUpTo(batches, s.checkpoint + Ahead(h)), FactsUpTo(batches, s.checkpoint + Ahead(c)));
  }

  lemma {:induction false} RowsHaveHistory(t: Tables, facts: set<Fact>, older: set<Fact>)
    requires HistoryHolds(t.history, facts) && CurrentHolds(t.current, older) && older <= facts
    ensures forall c :: c in t.current ==>
      exists h :: h in t.history && h.eventId == c.latestEventId && h.version == c.version
  {
    forall c | c in t.current
      ensures exists h :: h in t.history && h.eventId == c.latestEventId && h.version == c.version
    {
      var f := Fact(c.latestEventId, c.version);
      assert f in facts;
      var h :| h in t.history && Fact(h.eventId, h.version) == f;
    }
  }

  /** At every checkpoint the current row of an order is its newest version in history, and every order has one. */
  lemma {:induction false} CurrentIsNewestInHistory(
      states: seq<Stream>, writes: seq<nat>, batches: seq<seq<Parsed>>, i: nat)
    requires GoodTopic(batches) && StreamRun(states, writes, batches)
    requires i < |writes| && writes[i] == 4
    ensures var t := states[i + 1].tables;
      && (forall h :: h in t.history ==> HasRow(t.current, h.version.orderId))
      && (forall c, h :: c in t.current && h in t.history && h.version.orderId == c.version.orderId ==>
            h.version.updatedAt <= c.version.updatedAt)
      && (forall c :: c in t.current ==>
            exists h :: h in t.history && h.eventId == c.latestEventId && h.version == c.version)
  {
    CheckpointIsExact(states, writes, batches, i);
    CurrentRefersToHistory(states, writes, batches, i + 1);
    var t := states[i + 1].tables;
    forall h | h in t.history
      ensures HasRow(t.current, h.version.orderId)
      ensures forall c :: c in t.current && h.version.orderId == c.version.orderId ==>
        h.version.updatedAt <= c.version.updatedAt
    {
      assert Fact(h.eventId, h.version) in FactsUpTo(batches, states[i + 1].checkpoint);
    }
  }

  // ----- Never backwards -----

  /** No step of a run lowers an order's version: a replayed or late older event does not roll it back. */
  lemma {:induction false} NeverRollsBack(
      s: Stream, s': Stream, batches: seq<seq<Parsed>>, writes: nat, c: CurrentRow)
    requires GoodTopic(batches) && StreamInv(s, batches) && Attempt(s, s', batches, writes)
    requires c in s.tables.current
    ensures exists c' :: c' in s'.tables.current && SameOrder(c', c) && c'.version.updatedAt >= c.version.updatedAt
  {
    hide HistoryHolds, CurrentHolds, GoodTopic, FactsUpTo, LettersUpTo, Facts, Letters, Attempt;
    var h, k, d :| AtOrAhead(s, batches, h, k, d);
    AttemptInv(s, s', batches, writes, h, k, d);
    var n := s.checkpoint + Ahead(k);
    var n' := AttemptTarget(s, s', batches, writes, k);
    UpToMonotone(batches, n, n');
    RowMovesForward(s.tables.current, FactsUpTo(batches, n), s'.tables.current, FactsUpTo(batches, n'), c);
  }

  lemma {:induction false} AttemptTarget(
      s: Stream, s': Stream, batches: seq<seq<Parsed>>, writes: nat, k: bool) returns (n': nat)
    requires Attempt(s, s', batches, writes)
    ensures s.checkpoint + Ahead(k) <= n' <= |batches| && writes <= 4
    ensures n' == if writes == 4 then s'.checkpoint + Ahead(false) else s'.checkpoint + Ahead(k || writes >= 2)
  {
    n' := if writes == 4 then s'.checkpoint else s.checkpoint + Ahead(k || writes >= 2);
  }

  lemma {:induction false} RowMovesForward(
      current: set<CurrentRow>, facts: set<Fact>, current': set<CurrentRow>, facts': set<Fact>, c: CurrentRow)
    requires CurrentHolds(current, facts) && CurrentHolds(current', facts') && facts <= facts' && c in current
    ensures exists c' :: c' in current' && SameOrder(c', c) && c'.version.updatedAt >= c.version.updatedAt
  {
    var f := Fact(c.latestEventId, c.version);
    assert f in facts';
    assert HasRow(current', f.version.orderId);
    var c' :| c' in current' && c'.version.orderId == c.version.orderId;
    assert Newest(facts', Fact(c'.latestEventId, c'.version));
  }

  /** order_events has one row per version ever published. */
  lemma {:induction false} OneRowPerFact(history: set<HistoryRow>, facts: set<Fact>)
    requires HistoryHolds(history, facts)
    ensures |history| == |facts|
  {
    if history == {} {
      assert facts == {};
    } else {
      var h :| h in history;
      var f := Fact(h.eventId, h.version);
      forall g | g in facts - {f} ensures exists r :: r in history - {h} && Fact(r.eventId, r.version) == g {
        var r :| r in history && Fact(r.eventId, r.version) == g;
      }
      OneRowPerFact(history - {h}, facts - {f});
    }
  }

  // ----- merge_batch as it runs -----

  lemma {:induction false} DedupExists(batch: seq<Parsed>)
    ensures exists kept :: IsDedup(batch, kept)
  {
    if batch == [] {
      assert IsDedup(batch, {});
    } else {
      var front, p := batch[..|batch| - 1], batch[|batch| - 1];
      assert batch == front + [p];
      DedupExists(front);
      var kept :| IsDedup(front, kept);
      if !ToHistory(p) || HasEvent(kept, p.eventId) {
        assert IsDedup(batch, kept);
      } else {
        assert forall q: Parsed :: q in kept ==> q.eventId != p.eventId;
        assert forall id :: HasEvent(kept, id) ==> HasEvent(kept + {p}, id);
        assert HasEvent(kept + {p}, p.eventId);
        assert IsDedup(batch, kept + {p});
      }
    }
  }

  lemma {:induction false} LatestExists(kept: set<Parsed>)
    requires forall p :: p in kept ==> ToHistory(p)
    ensures exists latest :: IsLatest(kept, latest)
  {
    if kept == {} {
      assert IsLatest(kept, {});
    } else {
      var p :| p in kept;
      LatestExists(kept - {p});
      var latest :| IsLatest(kept - {p}, latest);
      AddToLatest(kept - {p}, latest, p);
      assert (kept - {p}) + {p} == kept;
    }
  }

  /** Whatever the batch, Spark has representatives to choose for both sinks. */
  lemma {:induction false} ChoicesExist(batch: seq<Parsed>)
    ensures exists kept :: IsDedup(batch, kept)
    ensures exists latest :: IsLatestOf(batch, latest)
  {
    DedupExists(batch);
    var kept :| IsDedup(batch, kept);
    LatestExists(kept);
    var latest :| IsLatest(kept, latest);
    assert IsLatestOf(batch, latest);
  }

  lemma {:induction false} AddToLatest(kept: set<Parsed>, latest: set<Parsed>, p: Parsed)
    requires forall q :: q in kept ==> ToHistory(q)
    requires ToHistory(p) && p !in kept && IsLatest(kept, latest)
    ensures exists latest' :: IsLatest(kept + {p}, latest')
  {
    var latest' :=
      if exists q :: q in latest && q.orderId == p.orderId && Precedes(q, p) then latest
      else (set q | q in latest && q.orderId != p.orderId) + {p};
    forall q | q in kept + {p} ensures HasOrder(latest', q.orderId) {
      if q.orderId == p.orderId {
        assert p in latest' || exists r :: r in latest' && r.orderId == p.orderId;
      } else {
        assert HasOrder(latest, q.orderId);
        var r :| r in latest && r.orderId == q.orderId;
        assert r in latest';
      }
    }
    forall r, q | r in latest' && q in kept + {p} && r.orderId == q.orderId ensures Precedes(r, q) {
      if r == p && q != p {
        assert HasOrder(latest, q.orderId);
        var t :| t in latest && t.orderId == q.orderId;
        assert Precedes(t, q) && !Precedes(t, p);
      }
    }
    assert IsLatest(kept + {p}, latest');
  }

  class IcebergSinks {
    var history: set<HistoryRow>
    var current: set<CurrentRow>
    var dead: set<DeadRow>

    constructor ()
      ensures View() == NO_ROWS
    {
      history, current, dead := {}, {}, {};
    }

    ghost function View(): Tables
      reads this
    {
      Tables(history, current, dead)
    }

    /** Sink 1: order_events, skipped when no row is valid. */
    method CommitHistory(kept: set<Parsed>)
      requires forall p :: p in kept ==> ToHistory(p)
      modifies this`history
      ensures history == WriteHistory(old(history), HistoryUpdates(kept))
    {
      if kept != {} {
        var updates := set p | p in kept :: HistoryRowOf(p);
        if history == {} {
          history := updates;
        } else {
          history := history + set u | u in updates && forall t :: t in history ==> t.eventId != u.eventId;
        }
      }
    }

    /** Sink 2: current_orders. */
    method CommitCurrent(latest: set<Parsed>)
      requires forall p :: p in latest ==> ToHistory(p)
      modifies this`current
      ensures current == WriteCurrent(old(current), CurrentUpdates(latest))
    {
      if latest != {} {
        var updates := set p | p in latest :: CurrentRowOf(p);
        if current == {} {
          current := updates;
        } else {
          var replaced := set t | t in current && exists u :: u in updates && Replaces(u, t);
          var accepted := set u | u in updates && forall t :: t in current && SameOrder(u, t) ==> Replaces(u, t);
          current := (current - replaced) + accepted;
        }
      }
    }

    /** Sink 3: dead_letter_events, skipped when no row is invalid. */
    method CommitDeadLetters(batch: seq<Parsed>)
      modifies this`dead
      ensures dead == WriteDead(old(dead), batch)
    {
      var updates := set p | p in batch && ToDeadLetters(p) :: DeadRowOf(p);
      if updates != {} {
        if dead == {} {
          dead := updates;
        } else {
          dead := dead + set u | u in updates && forall t :: t in dead ==> t.id != u.id;
        }
      }
    }

    /**
     * merge_batch with Spark's free choices: `kept` for history and, independently, the
     * representatives behind `latest` for current state (ChoicesExist shows there
     * always are some). The process survives `writes` of the three commits.
     */
    method MergeBatch(batch: seq<Parsed>, kept: set<Parsed>, latest: set<Parsed>, writes: nat) returns (completed: bool)
      requires IsDedup(batch, kept) && IsLatestOf(batch, latest)
      modifies this
      ensures View() == AfterWrites(old(View()), batch, kept, latest, writes)
      ensures completed <==> batch == [] || writes >= 3
    {
      if batch == [] {
        EmptyBatchWritesNothing(View(), kept, latest, writes);
        return true;
      }
      hide WriteHistory, WriteCurrent, WriteDead, HistoryUpdates, CurrentUpdates;
      if writes == 0 { return false; }
      CommitHistory(kept);
      if writes == 1 { return false; }
      CommitCurrent(latest);
      if writes == 2 { return false; }
      CommitDeadLetters(batch);
      return true;
    }
  }

  lemma {:induction false} EmptyBatchWritesNothing(t: Tables, kept: set<Parsed>, latest: set<Parsed>, writes: nat)
    requires IsDedup([], kept) && IsLatestOf([], latest)
    ensures AfterWrites(t, [], kept, latest, writes) == t
  {
    assert kept == {} && latest == {};
    assert HistoryUpdates(kept) == {} && CurrentUpdates(latest) == {};
  }
}
