/**
 * cdc/materialize_customers.py as it runs: a PostgreSQL session whose transaction is
 * filled row by row, a Kafka consumer with committed offsets, and the batch and poll
 * loops that keep the database ahead of the offsets.
 */
module CdcMaterializer {
  import opened Prelude
  import opened CdcStore

  type Offsets = map<TopicPartition, nat>

  /** `next` is one past the greatest offset of partition `tp` in `ms`. */
  ghost predicate NextOffset(ms: seq<Message>, tp: TopicPartition, next: nat) {
    && (exists i :: 0 <= i < |ms| && ms[i].coord.tp == tp && ms[i].coord.offset + 1 == next)
    && (forall i :: 0 <= i < |ms| && ms[i].coord.tp == tp ==> ms[i].coord.offset < next)
  }

  /** `offsets` names exactly the partitions of `ms`, each with its next offset. */
  ghost predicate Acknowledges(offsets: Offsets, ms: seq<Message>) {
    && (forall tp :: tp in offsets <==> exists i :: 0 <= i < |ms| && ms[i].coord.tp == tp)
    && (forall tp :: tp in offsets ==> NextOffset(ms, tp, offsets[tp]))
  }

  lemma {:induction false} AcknowledgesIsUnique(a: Offsets, b: Offsets, ms: seq<Message>)
    requires Acknowledges(a, ms) && Acknowledges(b, ms)
    ensures a == b
  {
    forall tp | tp in a ensures tp in b && a[tp] == b[tp] {
      assert NextOffset(ms, tp, a[tp]) && NextOffset(ms, tp, b[tp]);
    }
  }

  /** A psycopg connection: the open transaction's view of both tables, and the durable tables. */
  class Connection {
    var bronze: map<Coord, BronzeRow>
    var silver: map<Key, SilverRow>
    var durable: Store

    constructor (stored: Store)
      ensures durable == stored && Session() == stored
    {
      bronze, silver, durable := stored.bronze, stored.silver, stored;
    }

    ghost function Session(): Store
      reads this
    {
      Store(bronze, silver)
    }

    /** INSERT ... ON CONFLICT DO NOTHING RETURNING 1, after the check of the operation. */
    method InsertBronze(m: Message) returns (r: Result<bool, CdcError>)
      requires HasKey(m)
      modifies this`bronze
      ensures !Supported(OperationOf(m.value)) ==> r == Failure(UnsupportedOperation) && bronze == old(bronze)
      ensures Supported(OperationOf(m.value)) && m.coord in old(bronze) ==>
        r == Success(false) && bronze == old(bronze)
      ensures Supported(OperationOf(m.value)) && m.coord !in old(bronze) ==>
        r == Success(true) && bronze == old(bronze)[m.coord := BronzeOf(m)]
    {
      if !Supported(OperationOf(m.value)) {
        return Failure(UnsupportedOperation);
      }
      if m.coord in bronze {
        return Success(false);
      }
      bronze := bronze[m.coord := BronzeOf(m)];
      return Success(true);
    }

    /** Folds one new Bronze event into Silver; a tombstone changes nothing. */
    method ApplySilver(m: Message) returns (error: Option<CdcError>)
      requires HasKey(m) && Supported(OperationOf(m.value))
      modifies this`silver
      ensures error.None? <==> FoldSilver(old(silver), m).Success?
      ensures error.Some? ==> FoldSilver(old(silver), m) == Failure(error.value) && silver == old(silver)
      ensures error.None? ==> silver == FoldSilver(old(silver), m).value
    {
      if m.value.None? {
        return None;
      }
      var event := m.value.value;
      if event.lsn.None? {
        return Some(MissingLsn);
      }
      var lsn, op := event.lsn.value, event.op.value;
      if op in {'r', 'c', 'u'} {
        if event.after.None? {
          return Some(MissingAfter);
        }
        var after := event.after.value;
        if after.customerId.None? {
          return Some(MissingAfterKey);
        }
        var k := after.customerId.value;
        if k !in silver || Newer(lsn, m.coord.offset, silver[k].lsn, silver[k].coord.offset) {
          silver := silver[k := SilverRow(after.attrs, false, op, lsn, event.tsMs, m.coord)];
        }
      } else if op == 'd' {
        var k := m.key.value;
        if k !in silver {
          silver := silver[k := SilverRow(NO_ATTRS, true, op, lsn, event.tsMs, m.coord)];
        } else if Newer(lsn, m.coord.offset, silver[k].lsn, silver[k].coord.offset) {
          silver := silver[k := SilverRow(silver[k].attrs, true, op, lsn, event.tsMs, m.coord)];
        }
      }
      return None;
    }

    /** One iteration of the loop in process_batch; a duplicate skips Silver. */
    method PersistRecord(m: Message) returns (r: Result<bool, CdcError>)
      modifies this`bronze, this`silver
      ensures r.Failure? ==> ApplyMessage(old(Session()), m) == Failure(r.error)
      ensures r.Success? ==> ApplyMessage(old(Session()), m) == Success((Session(), r.value))
    {
      if !HasKey(m) {
        return Failure(MissingBusinessKey);
      }
      r := InsertBronze(m);
      if r == Success(true) {
        var error := ApplySilver(m);
        if error.Some? {
          r := Failure(error.value);
        }
      }
    }

    method Commit()
      modifies this`durable
      ensures durable == Session()
    {
      durable := Store(bronze, silver);
    }

    /** What closing the connection on an exception does. */
    method Rollback()
      modifies this`bronze, this`silver
      ensures Session() == durable
    {
      bronze, silver := durable.bronze, durable.silver;
    }
  }

  /** A Kafka consumer group member, as far as its committed offsets go. */
  class Consumer {
    var committed: Offsets

    constructor (stored: Offsets)
      ensures committed == stored
    {
      committed := stored;
    }

    /** The synchronous commit call; it raises when the broker does not answer. */
    method Commit(offsets: Offsets, brokerUp: bool) returns (ok: bool)
      modifies this
      ensures ok == brokerUp
      ensures committed == if ok then old(committed) + offsets else old(committed)
    {
      if brokerUp { committed := committed + offsets; }
      ok := brokerUp;
    }
  }

  /** commit_offsets: the maximum loop, then one commit call. */
  method CommitOffsets(
      consumer: Consumer, messages: seq<Message>, brokerUp: bool) returns (ok: bool, ghost offsets: Offsets)
    modifies consumer
    ensures Acknowledges(offsets, messages)
    ensures ok == brokerUp
    ensures consumer.committed == if ok then old(consumer.committed) + offsets else old(consumer.committed)
  {
    var nextOffsets: Offsets := map[];
    for i := 0 to |messages|
      invariant Acknowledges(nextOffsets, messages[..i])
      invariant consumer.committed == old(consumer.committed)
    {
      var tp := messages[i].coord.tp;
      var known := if tp in nextOffsets then nextOffsets[tp] else 0;
      ghost var before := nextOffsets;
      nextOffsets := nextOffsets[tp := Max(known, messages[i].coord.offset + 1)];
      AcknowledgeOneMore(before, messages[..i], messages[i]);
      assert messages[..i + 1] == messages[..i] + [messages[i]];
    }
    assert messages[..|messages|] == messages;
    ok := consumer.Commit(nextOffsets, brokerUp);
    offsets := nextOffsets;
  }

  lemma {:induction false} AcknowledgeOneMore(offsets: Offsets, ms: seq<Message>, m: Message)
    requires Acknowledges(offsets, ms)
    ensures
      var known := if m.coord.tp in offsets then offsets[m.coord.tp] else 0;
      Acknowledges(offsets[m.coord.tp := Max(known, m.coord.offset + 1)], ms + [m])
  {
    var known := if m.coord.tp in offsets then offsets[m.coord.tp] else 0;
    var offsets' := offsets[m.coord.tp := Max(known, m.coord.offset + 1)];
    var all := ms + [m];
    assert all[|ms|] == m;
    forall tp | tp in offsets' ensures NextOffset(all, tp, offsets'[tp]) {
      if tp in offsets {
        assert NextOffset(ms, tp, offsets[tp]);
        var i :| 0 <= i < |ms| && ms[i].coord.tp == tp && ms[i].coord.offset + 1 == offsets[tp];
        assert all[i] == ms[i];
      }
    }
    forall tp ensures tp in offsets' <==> exists i :: 0 <= i < |all| && all[i].coord.tp == tp {
      if tp in offsets {
        var i :| 0 <= i < |ms| && ms[i].coord.tp == tp;
        assert all[i] == ms[i];
      }
      if i :| 0 <= i < |all| && all[i].coord.tp == tp {
        assert i == |ms| || ms[i] == all[i];
      }
    }
  }

  datatype BatchResult =
    | Acknowledged(inserted: nat, duplicates: nat)
    | Unacknowledged(inserted: nat, duplicates: nat)
    | Aborted(error: CdcError)

  /** How many rows `t` has that `s` has not. */
  ghost function NewRows(s: Store, t: Store): nat {
    |t.bronze.Keys - s.bronze.Keys|
  }

  /**
   * process_batch: every record into one transaction, then COMMIT, then the offsets.
   * An error leaves the durable tables and the offsets alone; a failed acknowledgement
   * leaves only the offsets behind.
   */
  method ProcessBatch(connection: Connection, consumer: Consumer, messages: seq<Message>, brokerUp: bool)
      returns (outcome: BatchResult, ghost offsets: Offsets)
    requires connection.Session() == connection.durable
    modifies connection, consumer
    ensures connection.Session() == connection.durable
    ensures Acknowledges(offsets, messages)
    ensures outcome.Aborted? ==>
      && ApplyBatch(old(connection.durable), messages) == Failure(outcome.error)
      && connection.durable == old(connection.durable)
      && consumer.committed == old(consumer.committed)
    ensures !outcome.Aborted? ==>
      && ApplyBatch(old(connection.durable), messages) == Success(connection.durable)
      && outcome.inserted == NewRows(old(connection.durable), connection.durable)
      && outcome.inserted + outcome.duplicates == |messages|
      && outcome.Acknowledged? == brokerUp
      && consumer.committed == if brokerUp then old(consumer.committed) + offsets else old(consumer.committed)
  {
    offsets :| Acknowledges(offsets, messages) by { AcknowledgesExists(messages); }
    var r := PersistBatch(connection, messages);
    match r {
      case Failure(e) =>
        connection.Rollback();
        outcome := Aborted(e);
      case Success(counts) =>
        connection.Commit();
        var ok, acked := CommitOffsets(consumer, messages, brokerUp);
        AcknowledgesIsUnique(acked, offsets, messages);
        outcome := if ok then Acknowledged(counts.0, counts.1) else Unacknowledged(counts.0, counts.1);
    }
  }

  /** The loop of process_batch: inserted and duplicate records of one transaction. */
  method PersistBatch(connection: Connection, messages: seq<Message>) returns (r: Result<(nat, nat), CdcError>)
    modifies connection`bronze, connection`silver
    ensures r.Failure? ==> ApplyBatch(old(connection.Session()), messages) == Failure(r.error)
    ensures r.Success? ==>
      && ApplyBatch(old(connection.Session()), messages) == Success(connection.Session())
      && r.value.0 == NewRows(old(connection.Session()), connection.Session())
      && r.value.0 + r.value.1 == |messages|
  {
    hide ApplyMessage, ApplyBatch, NewRows;
    var inserted, duplicates := 0, 0;
    ghost var start := connection.Session();
    EmptyBatch(start);
    assert messages[..0] == [];
    for i := 0 to |messages|
      invariant ApplyBatch(start, messages[..i]) == Success(connection.Session())
      invariant start.bronze.Keys <= connection.bronze.Keys
      invariant inserted == NewRows(start, connection.Session())
      invariant inserted + duplicates == i
    {
      ghost var before := connection.Session();
      BatchStep(start, messages, i);
      var stored := connection.PersistRecord(messages[i]);
      match stored {
        case Failure(e) =>
          FailureIsFinal(start, messages, i + 1);
          return Failure(e);
        case Success(isNew) =>
          CountRecord(start, before, messages[i]);
          if isNew { inserted := inserted + 1; } else { duplicates := duplicates + 1; }
      }
    }
    assert messages[..|messages|] == messages;
    r := Success((inserted, duplicates));
  }

  lemma {:induction false} EmptyBatch(s: Store)
    ensures ApplyBatch(s, []) == Success(s)
    ensures NewRows(s, s) == 0
  {
    assert s.bronze.Keys - s.bronze.Keys == {};
  }

  lemma {:induction false} BatchStep(s: Store, ms: seq<Message>, n: nat)
    requires n < |ms|
    ensures ApplyBatch(s, ms[..n + 1]) ==
      match ApplyBatch(s, ms[..n])
      case Failure(e) => Failure(e)
      case Success(t) =>
        (match ApplyMessage(t, ms[n])
         case Failure(e) => Failure(e)
         case Success(p) => Success(p.0))
  {
    hide ApplyMessage;
    assert ms[..n + 1][..n] == ms[..n] && ms[..n + 1][n] == ms[n];
  }

  /** The counters agree with the rows Bronze gained. */
  lemma {:induction false} CountRecord(start: Store, s: Store, m: Message)
    requires start.bronze.Keys <= s.bronze.Keys && ApplyMessage(s, m).Success?
    ensures start.bronze.Keys <= ApplyMessage(s, m).value.0.bronze.Keys
    ensures NewRows(start, ApplyMessage(s, m).value.0) == NewRows(start, s) + if ApplyMessage(s, m).value.1 then 1 else 0
  {
    hide ApplyMessage;
    MessageKeys(s, m);
    OneMore(start.bronze.Keys, s.bronze.Keys, ApplyMessage(s, m).value.0.bronze.Keys, m.coord);
  }

  lemma {:induction false} OneMore<T>(a: set<T>, s: set<T>, t: set<T>, c: T)
    requires a <= s && t == s + {c}
    ensures |t - a| == |s - a| + if c in s then 0 else 1
  {
    if c in s {
      assert t == s;
    } else {
      assert t - a == (s - a) + {c};
    }
  }

  lemma {:induction false} MessageKeys(s: Store, m: Message)
    requires ApplyMessage(s, m).Success?
    ensures var (t, isNew) := ApplyMessage(s, m).value;
      && t.bronze.Keys == s.bronze.Keys + {m.coord}
      && isNew == (m.coord !in s.bronze)
  {
  }

  lemma {:induction false} AcknowledgesExists(ms: seq<Message>)
    ensures exists offsets :: Acknowledges(offsets, ms)
  {
    if ms == [] {
      assert Acknowledges(map[], ms);
    } else {
      var front, last := ms[..|ms| - 1], ms[|ms| - 1];
      AcknowledgesExists(front);
      var offsets :| Acknowledges(offsets, front);
      AcknowledgeOneMore(offsets, front, last);
      assert ms == front + [last];
    }
  }

  lemma {:induction false} FailureIsFinal(s: Store, ms: seq<Message>, n: nat)
    requires n <= |ms| && ApplyBatch(s, ms[..n]).Failure?
    ensures ApplyBatch(s, ms) == ApplyBatch(s, ms[..n])
  {
    if n == |ms| {
      assert ms[..n] == ms;
    } else {
      assert ms[..|ms| - 1][..n] == ms[..n];
      FailureIsFinal(s, ms[..|ms| - 1], n);
    }
  }

  // ----- The poll loop -----

  /** One element of a poll: a record, the end of a partition, or a broker error. */
  datatype Fetched = Record(message: Message) | PartitionEof | BrokerError

  /** One turn of the loop: what consume() returned and whether the commit call would succeed. */
  datatype Turn = Turn(fetched: seq<Fetched>, brokerUp: bool)

  datatype Exit = Stopped | Crashed

  function Records(fetched: seq<Fetched>): seq<Message> {
    if fetched == [] then []
    else Records(fetched[..|fetched| - 1]) +
         (match fetched[|fetched| - 1] case Record(m) => [m] case _ => [])
  }

  /** The k-th record of a poll is the k-th message fetched: none is dropped, added or moved. */
  lemma {:induction false} RecordsInPollOrder(fetched: seq<Fetched>) returns (at: seq<nat>)
    ensures |at| == |Records(fetched)|
    ensures forall k :: 0 <= k < |at| ==> at[k] < |fetched| && fetched[at[k]] == Record(Records(fetched)[k])
    ensures forall k, l :: 0 <= k < l < |at| ==> at[k] < at[l]
    ensures forall i: nat :: i < |fetched| && fetched[i].Record? ==> i in at
  {
    if fetched == [] {
      at := [];
    } else {
      var n := |fetched| - 1;
      var front := RecordsInPollOrder(fetched[..n]);
      at := front + if fetched[n].Record? then [n] else [];
      forall k | 0 <= k < |front| ensures at[k] < n && fetched[at[k]] == Record(Records(fetched)[k]) {
        assert fetched[..n][front[k]] == fetched[at[k]];
      }
      forall i: nat | i < |fetched| && fetched[i].Record? ensures i in at {
        if i < n {
          assert fetched[..n][i].Record?;
        } else {
          assert at[|front|] == n;
        }
      }
    }
  }

  /** The offsets one commit call acknowledges. */
  ghost function NextOffsets(ms: seq<Message>): (offsets: Offsets)
    ensures Acknowledges(offsets, ms)
  {
    AcknowledgesExists(ms);
    var offsets :| Acknowledges(offsets, ms);
    offsets
  }

  /** What outlives the process. */
  datatype Remains = Remains(tables: Store, committed: Offsets)

  /** The durable tables and committed offsets after `turns`, or at the point at which the process died. */
  ghost function Survived(s: Remains, turns: seq<Turn>): (Remains, Exit)
    decreases |turns|
  {
    if turns == [] then (s, Stopped)
    else
      var t := turns[0];
      if BrokerError in t.fetched then (s, Crashed)
      else if Records(t.fetched) == [] then Survived(s, turns[1..])
      else
        match ApplyBatch(s.tables, Records(t.fetched))
        case Failure(_) => (s, Crashed)
        case Success(tables) =>
          if t.brokerUp then Survived(Remains(tables, s.committed + NextOffsets(Records(t.fetched))), turns[1..])
          else (Remains(tables, s.committed), Crashed)
  }

  ghost function RecordCount(turns: seq<Turn>): nat {
    if turns == [] then 0 else RecordCount(turns[..|turns| - 1]) + |Records(turns[|turns| - 1].fetched)|
  }

  /** The inner loop of main: end-of-partition markers are skipped, any other error is raised. */
  method ValidMessages(fetched: seq<Fetched>) returns (messages: Option<seq<Message>>)
    ensures messages == if BrokerError in fetched then None else Some(Records(fetched))
  {
    var valid := [];
    for i := 0 to |fetched|
      invariant valid == Records(fetched[..i])
      invariant BrokerError !in fetched[..i]
    {
      assert fetched[..i + 1][..i] == fetched[..i];
      match fetched[i] {
        case PartitionEof =>
        case BrokerError =>
          assert fetched[i] in fetched;
          return None;
        case Record(m) =>
          valid := valid + [m];
      }
    }
    assert fetched[..|fetched|] == fetched;
    messages := Some(valid);
  }

  /** main: poll until stopped; any raised error ends the process with whole batches only. */
  method PollLoop(connection: Connection, consumer: Consumer, turns: seq<Turn>)
      returns (exit: Exit, totalInserted: nat, totalDuplicates: nat)
    requires connection.Session() == connection.durable
    modifies connection, consumer
    ensures (Remains(connection.durable, consumer.committed), exit)
      == Survived(Remains(old(connection.durable), old(consumer.committed)), turns)
    ensures connection.Session() == connection.durable
    ensures exit == Stopped ==>
      && totalInserted == NewRows(old(connection.durable), connection.durable)
      && totalInserted + totalDuplicates == RecordCount(turns)
  {
    hide ApplyBatch, Acknowledges, Records;
    totalInserted, totalDuplicates := 0, 0;
    ghost var start := Remains(connection.durable, consumer.committed);
    for n := 0 to |turns|
      invariant connection.Session() == connection.durable
      invariant Survived(start, turns) == Survived(Remains(connection.durable, consumer.committed), turns[n..])
      invariant start.tables.bronze.Keys <= connection.durable.bronze.Keys
      invariant totalInserted == NewRows(start.tables, connection.durable)
      invariant totalInserted + totalDuplicates == RecordCount(turns[..n])
    {
      assert turns[n..][0] == turns[n] && turns[n..][1..] == turns[n + 1..];
      assert turns[..n + 1][..n] == turns[..n];
      var valid := ValidMessages(turns[n].fetched);
      if valid.None? {
        return Crashed, totalInserted, totalDuplicates;
      }
      var messages := valid.value;
      if messages != [] {
        ghost var before := connection.durable;
        var outcome, offsets := ProcessBatch(connection, consumer, messages, turns[n].brokerUp);
        AcknowledgesIsUnique(offsets, NextOffsets(messages), messages);
        match outcome {
          case Aborted(_) =>
            return Crashed, totalInserted, totalDuplicates;
          case Unacknowledged(_, _) =>
            return Crashed, totalInserted, totalDuplicates;
          case Acknowledged(inserted, duplicates) =>
            BronzeGrows(before, messages);
            NewRowsAdd(start.tables, before, connection.durable);
            totalInserted := totalInserted + inserted;
            totalDuplicates := totalDuplicates + duplicates;
        }
      }
    }
    assert turns[..|turns|] == turns;
    exit := Stopped;
  }

  lemma {:induction false} BronzeGrows(s: Store, ms: seq<Message>)
    requires ApplyBatch(s, ms).Success?
    ensures s.bronze.Keys <= ApplyBatch(s, ms).value.bronze.Keys
  {
    if ms == [] {
    } else {
      BronzeGrows(s, ms[..|ms| - 1]);
    }
  }

  lemma {:induction false} NewRowsAdd(s: Store, t: Store, u: Store)
    requires s.bronze.Keys <= t.bronze.Keys <= u.bronze.Keys
    ensures NewRows(s, u) == NewRows(s, t) + NewRows(t, u)
  {
    assert u.bronze.Keys - s.bronze.Keys == (t.bronze.Keys - s.bronze.Keys) + (u.bronze.Keys - t.bronze.Keys);
  }
}
