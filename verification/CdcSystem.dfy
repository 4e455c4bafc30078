/**
 * The materializer against its surroundings: partition logs that grow and are
 * compacted, committed offsets that may move backwards, and a process that may die
 * between the database commit and the offset commit.
 */
module CdcSystem {
  import opened Prelude
  import opened CdcStore
  import opened CdcMaterializer

  datatype Entry = Entry(key: Option<Key>, value: Option<Event>)

  /** Everything ever appended, per partition; the offset is the index. */
  type Log = map<TopicPartition, seq<Entry>>

  /** Where the producer's partitioner puts a customer key. */
  type Home = Key -> TopicPartition

  datatype System = System(log: Log, removed: set<Coord>, store: Store, committed: Offsets, position: Offsets)

  function Entries(log: Log, tp: TopicPartition): seq<Entry> {
    if tp in log then log[tp] else []
  }

  predicate InLog(log: Log, c: Coord) {
    c.offset < |Entries(log, c.tp)|
  }

  function EntryAt(log: Log, c: Coord): Entry
    requires InLog(log, c)
  {
    Entries(log, c.tp)[c.offset]
  }

  function MessageAt(log: Log, c: Coord): Message
    requires InLog(log, c)
  {
    Message(c, EntryAt(log, c).key, EntryAt(log, c).value)
  }

  /** A partition without a committed offset starts at the beginning (auto.offset.reset=earliest). */
  function OffsetIn(offsets: Offsets, tp: TopicPartition): nat {
    if tp in offsets then offsets[tp] else 0
  }

  /** The record at `c` is a well-formed data event about `k`. */
  predicate DataAt(log: Log, c: Coord, k: Key) {
    InLog(log, c) && Acceptable(MessageAt(log, c)) && About(BronzeOf(MessageAt(log, c)), k)
  }

  function LsnOf(log: Log, c: Coord): int
    requires InLog(log, c) && Acceptable(MessageAt(log, c)) && IsDataOp(BronzeOf(MessageAt(log, c)).op)
  {
    EntryAt(log, c).value.value.lsn.value
  }

  /** What the producer guarantees: a key stays in its partition, and equals the row image's key. */
  ghost predicate WellKeyed(log: Log, home: Home) {
    && (forall c :: InLog(log, c) && EntryAt(log, c).key.Some? ==> home(EntryAt(log, c).key.value) == c.tp)
    && (forall c, k :: DataAt(log, c, k) ==> EntryAt(log, c).key == Some(k))
  }

  // ----- Steps -----

  /** The poll returned `ms`: every retained record from `position` up to `position'`, in order per partition. */
  ghost predicate Polled(s: System, ms: seq<Message>, position': Offsets) {
    && (forall tp :: OffsetIn(s.position, tp) <= OffsetIn(position', tp) <= |Entries(s.log, tp)|)
    && (forall i :: 0 <= i < |ms| ==>
          && InLog(s.log, ms[i].coord) && ms[i].coord !in s.removed
          && ms[i] == MessageAt(s.log, ms[i].coord)
          && OffsetIn(s.position, ms[i].coord.tp) <= ms[i].coord.offset < OffsetIn(position', ms[i].coord.tp))
    && (forall i, j :: 0 <= i < j < |ms| && ms[i].coord.tp == ms[j].coord.tp ==>
          ms[i].coord.offset < ms[j].coord.offset)
    && (forall c :: InLog(s.log, c) && c !in s.removed
                    && OffsetIn(s.position, c.tp) <= c.offset < OffsetIn(position', c.tp) ==>
          exists i :: 0 <= i < |ms| && ms[i].coord == c)
  }

  ghost predicate Produce(s: System, s': System, home: Home, tp: TopicPartition, e: Entry) {
    && s' == s.(log := s.log[tp := Entries(s.log, tp) + [e]])
    && WellKeyed(s'.log, home)
  }

  /** process_batch committed the batch; `acked` says whether commit_offsets got through. */
  ghost predicate Process(s: System, s': System, ms: seq<Message>, position': Offsets, acked: bool) {
    && Polled(s, ms, position')
    && ApplyBatch(s.store, ms).Success?
    && exists offsets :: Acknowledges(offsets, ms) &&
         var store := ApplyBatch(s.store, ms).value;
         s' == if acked then s.(store := store, committed := s.committed + offsets, position := position')
               else s.(store := store, position := s.committed)
  }

  /** Any raised error, and any restart: the transaction is gone, reading resumes at the committed offsets. */
  ghost predicate Restart(s: System, s': System) {
    s' == s.(position := s.committed)
  }

  /** A second group member moves committed offsets backwards. */
  ghost predicate MoveBack(s: System, s': System) {
    && s' == s.(committed := s'.committed)
    && forall tp :: OffsetIn(s'.committed, tp) <= OffsetIn(s.committed, tp)
  }

  /** A later record of the same partition carries the same key. */
  ghost predicate Superseded(log: Log, c: Coord)
    requires InLog(log, c)
  {
    EntryAt(log, c).key.Some? &&
    exists c' :: InLog(log, c') && c'.tp == c.tp && c.offset < c'.offset && EntryAt(log, c').key == EntryAt(log, c).key
  }

  /** cleanup.policy=compact: only superseded records and tombstones may go. */
  ghost predicate Compact(s: System, s': System) {
    && s' == s.(removed := s'.removed)
    && s.removed <= s'.removed
    && forall c :: c in s'.removed ==> InLog(s.log, c) && (Superseded(s.log, c) || EntryAt(s.log, c).value.None?)
  }

  ghost predicate Next(s: System, s': System, home: Home) {
    || (exists tp, e :: Produce(s, s', home, tp, e))
    || (exists ms, position', acked :: Process(s, s', ms, position', acked))
    || Restart(s, s')
    || MoveBack(s, s')
    || Compact(s, s')
  }

  ghost predicate Init(s: System, home: Home) {
    s.removed == {} && s.store == EMPTY && s.committed == map[] && s.position == map[] && WellKeyed(s.log, home)
  }

  ghost predicate Run(states: seq<System>, home: Home) {
    && states != []
    && Init(states[0], home)
    && forall i :: 0 <= i < |states| - 1 ==> Next(states[i], states[i + 1], home)
  }

  // ----- Silver as the in-order fold of Bronze -----

  /** Rebuilds one Silver row by reading Bronze of one partition in offset order. */
  ghost function Refold(bronze: map<Coord, BronzeRow>, tp: TopicPartition, n: nat, k: Key): Option<SilverRow> {
    if n == 0 then None
    else
      var prior, c := Refold(bronze, tp, n - 1, k), Coord(tp, n - 1);
      if c in bronze && About(bronze[c], k) then Some(UpsertRow(prior, c, bronze[c])) else prior
  }

  lemma {:induction false} RefoldFrame(
      b: map<Coord, BronzeRow>, b': map<Coord, BronzeRow>, tp: TopicPartition, n: nat, k: Key)
    requires forall o: nat :: o < n ==> Lookup(b, Coord(tp, o)) == Lookup(b', Coord(tp, o))
    ensures Refold(b, tp, n, k) == Refold(b', tp, n, k)
  {
    if n == 0 {
    } else {
      RefoldFrame(b, b', tp, n - 1, k);
      assert Lookup(b, Coord(tp, n - 1)) == Lookup(b', Coord(tp, n - 1));
    }
  }

  lemma {:induction false} RefoldBeyond(b: map<Coord, BronzeRow>, tp: TopicPartition, n: nat, n': nat, k: Key)
    requires n <= n' && forall o: nat :: n <= o < n' ==> Coord(tp, o) !in b
    ensures Refold(b, tp, n, k) == Refold(b, tp, n', k)
  {
    if n == n' {
    } else {
      RefoldBeyond(b, tp, n, n' - 1, k);
    }
  }

  /** Appending a row past every row of its partition is one more step of the fold. */
  lemma {:induction false} RefoldAppend(b: map<Coord, BronzeRow>, c: Coord, row: BronzeRow, n: nat, k: Key)
    requires c.offset < n && forall o: nat :: c.offset <= o < n ==> Coord(c.tp, o) !in b
    ensures Refold(b[c := row], c.tp, n, k) ==
      var prior := Refold(b, c.tp, n, k);
      if About(row, k) then Some(UpsertRow(prior, c, row)) else prior
  {
    RefoldBeyond(b, c.tp, c.offset, n, k);
    RefoldFrame(b, b[c := row], c.tp, c.offset, k);
    RefoldBeyond(b[c := row], c.tp, c.offset + 1, n, k);
  }

  ghost predicate InOrderFold(log: Log, store: Store, home: Home) {
    forall k :: Lookup(store.silver, k) == Refold(store.bronze, home(k), |Entries(log, home(k))|, k)
  }

  // ----- The invariant -----

  ghost predicate FromLog(log: Log, bronze: map<Coord, BronzeRow>) {
    forall c :: c in bronze ==>
      InLog(log, c) && Acceptable(MessageAt(log, c)) && bronze[c] == BronzeOf(MessageAt(log, c))
  }

  /** Every retained record below `offsets` is in Bronze. */
  ghost predicate Covered(s: System, offsets: Offsets) {
    forall c :: InLog(s.log, c) && c !in s.removed && c.offset < OffsetIn(offsets, c.tp) ==> c in s.store.bronze
  }

  ghost predicate WithinLog(log: Log, offsets: Offsets) {
    forall tp :: OffsetIn(offsets, tp) <= |Entries(log, tp)|
  }

  /** Bronze never skips a retained record of a partition. */
  ghost predicate NoGaps(s: System) {
    forall c: Coord, c': Coord :: c' in s.store.bronze && c.tp == c'.tp && c.offset < c'.offset && c !in s.removed ==>
      c in s.store.bronze
  }

  ghost predicate Inv(s: System, home: Home) {
    && WellKeyed(s.log, home)
    && SilverProjectsBronze(s.store)
    && FromLog(s.log, s.store.bronze)
    && WithinLog(s.log, s.committed) && WithinLog(s.log, s.position)
    && Covered(s, s.committed) && Covered(s, s.position)
    && NoGaps(s)
    && InOrderFold(s.log, s.store, home)
    && (forall c :: c in s.removed ==> InLog(s.log, c) && (Superseded(s.log, c) || EntryAt(s.log, c).value.None?))
  }

  lemma {:induction false} InitInv(s: System, home: Home)
    requires Init(s, home)
    ensures Inv(s, home)
  {
    forall k ensures Refold(s.store.bronze, home(k), |Entries(s.log, home(k))|, k) == None {
      RefoldBeyond(s.store.bronze, home(k), 0, |Entries(s.log, home(k))|, k);
    }
  }

  /** Appending to the log leaves what is in it alone. */
  lemma {:induction false} ProduceExtends(s: System, s': System, home: Home, tp: TopicPartition, e: Entry)
    requires Produce(s, s', home, tp, e)
    ensures forall c :: InLog(s.log, c) ==> InLog(s'.log, c) && EntryAt(s'.log, c) == EntryAt(s.log, c)
    ensures forall tp' :: |Entries(s.log, tp')| <= |Entries(s'.log, tp')|
  {
    hide WellKeyed;
  }

  lemma {:induction false} ProduceKeepsFold(s: System, s': System, home: Home, tp: TopicPartition, e: Entry)
    requires Produce(s, s', home, tp, e) && FromLog(s.log, s.store.bronze) && InOrderFold(s.log, s.store, home)
    ensures FromLog(s'.log, s'.store.bronze) && InOrderFold(s'.log, s'.store, home)
  {
    hide WellKeyed, Produce;
    assert s'.store == s.store by { StoreOf(s, s', home, tp, e); }
    ProduceExtends(s, s', home, tp, e);
    forall k ensures Lookup(s.store.silver, k) == Refold(s.store.bronze, home(k), |Entries(s'.log, home(k))|, k) {
      RefoldBeyond(s.store.bronze, home(k), |Entries(s.log, home(k))|, |Entries(s'.log, home(k))|, k);
    }
  }

  lemma {:induction false} StoreOf(s: System, s': System, home: Home, tp: TopicPartition, e: Entry)
    requires Produce(s, s', home, tp, e)
    ensures s' == s.(log := s'.log) && WellKeyed(s'.log, home)
  {
    hide WellKeyed;
  }

  /** A new record is at or beyond every offset, so nothing below one becomes unread. */
  lemma {:induction false} ProduceKeepsOffsets(s: System, s': System, home: Home, tp: TopicPartition, e: Entry, offsets: Offsets)
    requires Produce(s, s', home, tp, e) && WithinLog(s.log, offsets) && Covered(s, offsets)
    ensures WithinLog(s'.log, offsets) && Covered(s', offsets)
  {
    hide WellKeyed;
  }

  lemma {:induction false} ProduceKeepsRemoved(s: System, s': System, home: Home, tp: TopicPartition, e: Entry)
    requires Produce(s, s', home, tp, e)
    requires forall c :: c in s.removed ==> InLog(s.log, c) && (Superseded(s.log, c) || EntryAt(s.log, c).value.None?)
    ensures forall c :: c in s'.removed ==> InLog(s'.log, c) && (Superseded(s'.log, c) || EntryAt(s'.log, c).value.None?)
  {
    hide WellKeyed, Produce, InLog, EntryAt;
    StoreOf(s, s', home, tp, e);
    ProduceExtends(s, s', home, tp, e);
  }

  lemma {:induction false} ProduceInv(s: System, s': System, home: Home, tp: TopicPartition, e: Entry)
    requires Inv(s, home) && Produce(s, s', home, tp, e)
    ensures Inv(s', home)
  {
    hide WellKeyed, Produce, SilverProjectsBronze, FromLog, WithinLog, Covered, InOrderFold, Superseded;
    StoreOf(s, s', home, tp, e);
    ProduceKeepsFold(s, s', home, tp, e);
    ProduceKeepsOffsets(s, s', home, tp, e, s.committed);
    ProduceKeepsOffsets(s, s', home, tp, e, s.position);
    ProduceKeepsRemoved(s, s', home, tp, e);
  }

  // ----- A batch keeps the invariant -----

  lemma {:induction false} PolledIsConsistent(s: System, ms: seq<Message>, position': Offsets)
    requires Polled(s, ms, position') && FromLog(s.log, s.store.bronze)
    ensures Consistent(ms)
    ensures forall m :: m in ms ==> Fits(s.store.bronze, m)
  {
  }

  lemma {:induction false} PrefixSucceeds(s: Store, ms: seq<Message>, n: nat)
    requires n <= |ms| && ApplyBatch(s, ms).Success?
    ensures ApplyBatch(s, ms[..n]).Success?
  {
    if ApplyBatch(s, ms[..n]).Failure? { FailureIsFinal(s, ms, n); }
  }

  /** The Bronze rows after the first `n` records of a poll. */
  lemma {:induction false} PrefixRecorded(s: System, ms: seq<Message>, position': Offsets, n: nat)
    requires Polled(s, ms, position') && FromLog(s.log, s.store.bronze)
    requires n <= |ms| && ApplyBatch(s.store, ms).Success?
    ensures ApplyBatch(s.store, ms[..n]).Success?
    ensures Recorded(s.store.bronze, ms[..n], ApplyBatch(s.store, ms[..n]).value.bronze)
  {
    PrefixSucceeds(s.store, ms, n);
    PolledIsConsistent(s, ms, position');
    BatchOutcome(s.store, ms[..n]);
  }

  /** A record Bronze does not have yet lies past everything Bronze has of its partition. */
  lemma {:induction false} NewRecordIsLast(s: System, front: seq<Message>, m: Message, t: map<Coord, BronzeRow>)
    requires NoGaps(s) && m.coord !in s.removed
    requires forall j :: 0 <= j < |front| && front[j].coord.tp == m.coord.tp ==> front[j].coord.offset < m.coord.offset
    requires Recorded(s.store.bronze, front, t) && m.coord !in t
    ensures forall o: nat :: m.coord.offset <= o ==> Coord(m.coord.tp, o) !in t
  {
    hide Acceptable;
    forall c | c in t && c.tp == m.coord.tp ensures c.offset < m.coord.offset {
      if c !in s.store.bronze {
        var m' :| m' in front && m'.coord == c;
        var j :| 0 <= j < |front| && front[j] == m';
      }
    }
  }

  lemma {:induction false} FoldOneRecord(log: Log, t: Store, m: Message, home: Home)
    requires InOrderFold(log, t, home) && WellKeyed(log, home)
    requires InLog(log, m.coord) && m == MessageAt(log, m.coord)
    requires ApplyMessage(t, m).Success? && m.coord !in t.bronze
    requires forall o: nat :: m.coord.offset <= o ==> Coord(m.coord.tp, o) !in t.bronze
    ensures InOrderFold(log, ApplyMessage(t, m).value.0, home)
  {
    var t' := ApplyMessage(t, m).value.0;
    var b := BronzeOf(m);
    assert Acceptable(m);
    forall k ensures Lookup(t'.silver, k) == Refold(t'.bronze, home(k), |Entries(log, home(k))|, k) {
      var n := |Entries(log, home(k))|;
      if home(k) == m.coord.tp {
        RefoldAppend(t.bronze, m.coord, b, n, k);
      } else {
        RefoldFrame(t.bronze, t'.bronze, home(k), n, k);
        assert About(b, k) ==> DataAt(log, m.coord, k);
      }
      assert Lookup(t'.silver, k) ==
        if About(b, k) then Some(UpsertRow(Lookup(t.silver, k), m.coord, b)) else Lookup(t.silver, k);
    }
  }

  lemma {:induction false} FoldPrefix(s: System, ms: seq<Message>, position': Offsets, home: Home, n: nat)
    requires Inv(s, home) && Polled(s, ms, position')
    requires n <= |ms| && ApplyBatch(s.store, ms).Success?
    ensures ApplyBatch(s.store, ms[..n]).Success?
    ensures InOrderFold(s.log, ApplyBatch(s.store, ms[..n]).value, home)
  {
    PrefixSucceeds(s.store, ms, n);
    if n == 0 {
      assert ms[..0] == [];
    } else {
      FoldPrefix(s, ms, position', home, n - 1);
      FoldNext(s, ms, position', home, n - 1);
    }
  }

  lemma {:induction false} OneMessage(s: Store, ms: seq<Message>)
    requires ms != [] && ApplyBatch(s, ms).Success?
    ensures ApplyBatch(s, ms[..|ms| - 1]).Success?
    ensures var r := ApplyMessage(ApplyBatch(s, ms[..|ms| - 1]).value, ms[|ms| - 1]);
      r.Success? && ApplyBatch(s, ms).value == r.value.0
  {
    hide ApplyMessage;
  }

  lemma {:induction false} KnownRecord(s: Store, m: Message)
    requires m.coord in s.bronze && ApplyMessage(s, m).Success?
    ensures ApplyMessage(s, m).value.0 == s
  {
  }

  lemma {:induction false} FoldNext(s: System, ms: seq<Message>, position': Offsets, home: Home, n: nat)
    requires Inv(s, home) && Polled(s, ms, position')
    requires n < |ms| && ApplyBatch(s.store, ms).Success?
    requires ApplyBatch(s.store, ms[..n]).Success? && ApplyBatch(s.store, ms[..n + 1]).Success?
    requires InOrderFold(s.log, ApplyBatch(s.store, ms[..n]).value, home)
    ensures InOrderFold(s.log, ApplyBatch(s.store, ms[..n + 1]).value, home)
  {
    hide SilverProjectsBronze, ApplyMessage, InOrderFold, Covered, Superseded, Acceptable, WellKeyed;
    assert ms[..n + 1][..n] == ms[..n] && ms[..n + 1][n] == ms[n];
    var t := ApplyBatch(s.store, ms[..n]).value;
    OneMessage(s.store, ms[..n + 1]);
    if ms[n].coord in t.bronze {
      KnownRecord(t, ms[n]);
    } else {
      PrefixRecorded(s, ms, position', n);
      NewRecordIsLast(s, ms[..n], ms[n], t.bronze);
      FoldOneRecord(s.log, t, ms[n], home);
    }
  }

  /** `t` is `s` with the records of the poll, and nothing else, added to Bronze. */
  ghost predicate Extended(s: System, ms: seq<Message>, t: System) {
    && t == s.(store := t.store)
    && (forall c :: c in s.store.bronze ==> c in t.store.bronze)
    && (forall i :: 0 <= i < |ms| ==> ms[i].coord in t.store.bronze)
    && (forall c :: c in t.store.bronze && c !in s.store.bronze ==> exists i :: 0 <= i < |ms| && ms[i].coord == c)
  }

  lemma {:induction false} BatchExtends(s: System, ms: seq<Message>, position': Offsets)
    requires Polled(s, ms, position') && FromLog(s.log, s.store.bronze) && ApplyBatch(s.store, ms).Success?
    ensures var t := s.(store := ApplyBatch(s.store, ms).value);
      Extended(s, ms, t) && FromLog(t.log, t.store.bronze)
  {
    var t := s.(store := ApplyBatch(s.store, ms).value);
    PrefixRecorded(s, ms, position', |ms|);
    assert ms[..|ms|] == ms;
    assert forall i :: 0 <= i < |ms| ==> ms[i] in ms;
    forall c | c in t.store.bronze && c !in s.store.bronze
      ensures exists i :: 0 <= i < |ms| && ms[i].coord == c
      ensures InLog(t.log, c) && Acceptable(MessageAt(t.log, c)) && t.store.bronze[c] == BronzeOf(MessageAt(t.log, c))
    {
      var m :| m in ms && m.coord == c;
      var i :| 0 <= i < |ms| && ms[i] == m;
    }
  }

  /** The batch leaves nothing unread behind either offset map, and no gap in Bronze. */
  lemma {:induction false} BatchCovers(s: System, ms: seq<Message>, position': Offsets, offsets: Offsets, t: System)
    requires Polled(s, ms, position') && Extended(s, ms, t) && Acknowledges(offsets, ms)
    requires Covered(s, s.committed) && Covered(s, s.position)
    ensures Covered(t, s.committed) && Covered(t, position') && Covered(t, s.committed + offsets)
    ensures WithinLog(s.log, s.committed) ==> WithinLog(s.log, s.committed + offsets)
  {
    forall c | InLog(t.log, c) && c !in t.removed && c.offset < OffsetIn(position', c.tp)
      ensures c in t.store.bronze
    {
      if OffsetIn(s.position, c.tp) <= c.offset {
        var i :| 0 <= i < |ms| && ms[i].coord == c;
      }
    }
    forall tp | tp in offsets ensures offsets[tp] <= OffsetIn(position', tp) {
      assert NextOffset(ms, tp, offsets[tp]);
    }
  }

  lemma {:induction false} BatchLeavesNoGaps(s: System, ms: seq<Message>, position': Offsets, t: System)
    requires Polled(s, ms, position') && Extended(s, ms, t) && FromLog(t.log, t.store.bronze)
    requires Covered(t, position') && NoGaps(s)
    ensures NoGaps(t)
  {
    forall c: Coord, c': Coord | c' in t.store.bronze && c.tp == c'.tp && c.offset < c'.offset && c !in t.removed
      ensures c in t.store.bronze
    {
      if c' !in s.store.bronze {
        var i :| 0 <= i < |ms| && ms[i].coord == c';
        assert InLog(t.log, c) && c.offset < OffsetIn(position', c.tp);
      }
    }
  }

  lemma {:induction false} ProcessInv(
      s: System, s': System, home: Home, ms: seq<Message>, position': Offsets, acked: bool)
    requires Inv(s, home) && Process(s, s', ms, position', acked)
    ensures Inv(s', home)
  {
    hide SilverProjectsBronze, ApplyBatch, Acknowledges, FromLog, WellKeyed, InOrderFold, WithinLog, Polled, Extended;
    var offsets :| Acknowledges(offsets, ms) &&
      var store := ApplyBatch(s.store, ms).value;
      s' == if acked then s.(store := store, committed := s.committed + offsets, position := position')
            else s.(store := store, position := s.committed);
    ApplyBatchKeepsProjection(s.store, ms);
    var t := s.(store := ApplyBatch(s.store, ms).value);
    BatchExtends(s, ms, position');
    BatchCovers(s, ms, position', offsets, t);
    BatchLeavesNoGaps(s, ms, position', t);
    FoldPrefix(s, ms, position', home, |ms|);
    assert ms[..|ms|] == ms;
    PolledIsWithin(s, ms, position');
  }

  lemma {:induction false} PolledIsWithin(s: System, ms: seq<Message>, position': Offsets)
    requires Polled(s, ms, position')
    ensures WithinLog(s.log, position')
  {
  }

  lemma {:induction false} OffsetsInv(s: System, s': System, home: Home)
    requires Inv(s, home) && (Restart(s, s') || MoveBack(s, s'))
    ensures Inv(s', home)
  {
    hide SilverProjectsBronze, WellKeyed, FromLog, InOrderFold, Superseded;
  }

  lemma {:induction false} CompactInv(s: System, s': System, home: Home)
    requires Inv(s, home) && Compact(s, s')
    ensures Inv(s', home)
  {
    hide SilverProjectsBronze, FromLog, InOrderFold;
  }

  lemma {:induction false} NextInv(s: System, s': System, home: Home)
    requires Inv(s, home) && Next(s, s', home)
    ensures Inv(s', home)
  {
    hide Inv, Produce, Process, Restart, MoveBack, Compact;
    if tp, e :| Produce(s, s', home, tp, e) {
      ProduceInv(s, s', home, tp, e);
    } else if ms, position', acked :| Process(s, s', ms, position', acked) {
      ProcessInv(s, s', home, ms, position', acked);
    } else if Compact(s, s') {
      CompactInv(s, s', home);
    } else {
      OffsetsInv(s, s', home);
    }
  }

  lemma {:induction false} RunInv(states: seq<System>, home: Home, n: nat)
    requires Run(states, home) && n < |states|
    ensures Inv(states[n], home)
  {
    if n == 0 {
      InitInv(states[0], home);
    } else {
      RunInv(states, home, n - 1);
      assert Next(states[n - 1], states[n - 1 + 1], home);
      NextInv(states[n - 1], states[n], home);
    }
  }
}
