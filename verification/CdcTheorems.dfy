/**
 * What every run of the materializer guarantees: offsets never run ahead of the data,
 * crashes and replays leave no trace, and the live view converges to the source table.
 */
module CdcTheorems {
  import opened Prelude
  import opened CdcStore
  import opened CdcMaterializer
  import opened CdcSystem

  // ----- Safety over every run -----

  /** A committed offset never passes a record that is not in Bronze. */
  lemma {:induction false} OffsetSafety(states: seq<System>, home: Home, n: nat)
    requires Run(states, home) && n < |states|
    ensures var s := states[n];
      forall c :: InLog(s.log, c) && c !in s.removed && c.offset < OffsetIn(s.committed, c.tp) ==>
        c in s.store.bronze && Acceptable(MessageAt(s.log, c)) && s.store.bronze[c] == BronzeOf(MessageAt(s.log, c))
  {
    RunInv(states, home, n);
  }

  lemma {:induction false} LogIsOnePartitionPerKey(s: System, home: Home)
    requires WellKeyed(s.log, home) && FromLog(s.log, s.store.bronze)
    ensures OnePartitionPerKey(s.store.bronze)
  {
    forall c, c', k | c in s.store.bronze && c' in s.store.bronze
                      && About(s.store.bronze[c], k) && About(s.store.bronze[c'], k)
      ensures c.tp == c'.tp
    {
      assert DataAt(s.log, c, k) && DataAt(s.log, c', k);
    }
  }

  /** In every reachable state the live view shows the newest Bronze event of each key, or nothing after a delete. */
  lemma {:induction false} ViewInEveryState(states: seq<System>, home: Home, n: nat, k: Key)
    requires Run(states, home) && n < |states|
    ensures var s := states[n];
      && (forall c :: NewestOf(s.store.bronze, c, k) ==>
            Lookup(CustomersCurrent(s.store.silver), k)
            == (if s.store.bronze[c].op == 'd' then None else Some(s.store.bronze[c].after.value.attrs)))
      && (k in CustomersCurrent(s.store.silver) ==> exists c :: NewestOf(s.store.bronze, c, k))
  {
    RunInv(states, home, n);
    LogIsOnePartitionPerKey(states[n], home);
    ViewIsNewestBronzeEvent(states[n].store, k);
  }

  /** Silver, tombstone attributes included, is a function of Bronze: it can be rebuilt from it. */
  lemma {:induction false} SilverIsRebuildable(s: System, t: System, home: Home)
    requires Inv(s, home) && Inv(t, home)
    requires s.store.bronze == t.store.bronze
    ensures s.store.silver == t.store.silver
  {
    hide SilverProjectsBronze, WellKeyed, NoGaps, Covered, About, Acceptable;
    forall k ensures Lookup(s.store.silver, k) == Lookup(t.store.silver, k) {
      var tp := home(k);
      var n, n' := |Entries(s.log, tp)|, |Entries(t.log, tp)|;
      if n <= n' {
        RefoldBeyond(s.store.bronze, tp, n, n', k);
      } else {
        RefoldBeyond(s.store.bronze, tp, n', n, k);
      }
    }
    forall k | k in s.store.silver || k in t.store.silver
      ensures k in s.store.silver && k in t.store.silver && s.store.silver[k] == t.store.silver[k]
    {
      assert Lookup(s.store.silver, k) == Lookup(t.store.silver, k);
    }
  }

  /** Reachable states that have stored the same records of one log have the same tables. */
  lemma {:induction false} SameRecordsSameTables(run: seq<System>, n: nat, run': seq<System>, n': nat, home: Home)
    requires Run(run, home) && n < |run| && Run(run', home) && n' < |run'|
    requires run[n].log == run'[n'].log
    requires run[n].store.bronze.Keys == run'[n'].store.bronze.Keys
    ensures run[n].store == run'[n'].store
  {
    hide Inv;
    RunInv(run, home, n);
    RunInv(run', home, n');
    InvFromLog(run[n], home);
    InvFromLog(run'[n'], home);
    SameKeysSameBronze(run[n].log, run[n].store.bronze, run'[n'].store.bronze);
    SilverIsRebuildable(run[n], run'[n'], home);
  }

  lemma {:induction false} InvFromLog(s: System, home: Home)
    requires Inv(s, home)
    ensures FromLog(s.log, s.store.bronze)
  {
    hide FromLog, SilverProjectsBronze, NoGaps, Covered, InOrderFold, WellKeyed;
  }

  /** The group has committed the end of every partition. */
  ghost predicate Drained(s: System) {
    forall tp :: OffsetIn(s.committed, tp) == |Entries(s.log, tp)|
  }

  /** Every record still in the topic has been read, whatever the committed offsets say. */
  ghost predicate AllRead(s: System) {
    forall c :: InLog(s.log, c) && c !in s.removed ==> c in s.store.bronze
  }

  lemma {:induction false} DrainedIsRead(states: seq<System>, home: Home, n: nat)
    requires Run(states, home) && n < |states| && Drained(states[n])
    ensures AllRead(states[n])
  {
    hide Run, Acceptable;
    OffsetSafety(states, home, n);
    forall c | InLog(states[n].log, c) && c !in states[n].removed ensures c in states[n].store.bronze {
      assert c.offset < OffsetIn(states[n].committed, c.tp);
    }
  }

  /** With nothing removed and nothing unread, Bronze is exactly the log. */
  lemma {:induction false} BronzeIsLog(states: seq<System>, home: Home, n: nat)
    requires Run(states, home) && n < |states|
    requires AllRead(states[n]) && states[n].removed == {}
    ensures forall c :: c in states[n].store.bronze <==> InLog(states[n].log, c)
  {
    hide Run, Inv, InLog, Acceptable;
    RunInv(states, home, n);
    InvFromLog(states[n], home);
  }

  /**
   * Exactly-once effect: two runs over one log, with any batches, crashes, replays and
   * rebalances, have the same tables once they have read it, and Bronze is then the log.
   */
  lemma {:induction false} ExactlyOnce(run: seq<System>, n: nat, run': seq<System>, n': nat, home: Home)
    requires Run(run, home) && n < |run| && Run(run', home) && n' < |run'|
    requires run[n].log == run'[n'].log && run[n].removed == run'[n'].removed == {}
    requires AllRead(run[n]) && AllRead(run'[n'])
    ensures run[n].store == run'[n'].store
    ensures forall c :: c in run[n].store.bronze <==> InLog(run[n].log, c)
  {
    hide Run, AllRead, InLog;
    BronzeIsLog(run, home, n);
    BronzeIsLog(run', home, n');
    SameRecordsSameTables(run, n, run', n', home);
  }

  /** The state before anything was read. */
  function Fresh(log: Log): System {
    System(log, {}, EMPTY, map[], map[])
  }

  /** One uninterrupted batch over acceptable records is itself a reachable step. */
  lemma {:induction false} OnePass(log: Log, home: Home, ms: seq<Message>, upTo: Offsets)
    requires WellKeyed(log, home) && Polled(Fresh(log), ms, upTo)
    requires forall i :: 0 <= i < |ms| ==> Acceptable(ms[i])
    ensures ApplyBatch(EMPTY, ms).Success?
    ensures var t := Fresh(log).(store := ApplyBatch(EMPTY, ms).value);
      Inv(t, home) && forall c :: c in t.store.bronze <==> exists i :: 0 <= i < |ms| && ms[i].coord == c
  {
    hide Inv, ApplyBatch, Acceptable, WellKeyed, Polled, Acknowledges, FromLog;
    FreshSucceeds(log, ms, upTo);
    OnePassInv(log, home, ms, upTo);
    var t := Fresh(log).(store := ApplyBatch(EMPTY, ms).value);
    assert FromLog(log, EMPTY.bronze) by { NothingFromLog(log); }
    BatchExtends(Fresh(log), ms, upTo);
    assert Extended(Fresh(log), ms, t);
  }

  lemma {:induction false} NothingFromLog(log: Log)
    ensures FromLog(log, EMPTY.bronze)
  {
  }

  lemma {:induction false} FreshSucceeds(log: Log, ms: seq<Message>, upTo: Offsets)
    requires Polled(Fresh(log), ms, upTo)
    requires forall i :: 0 <= i < |ms| ==> Acceptable(ms[i])
    ensures ApplyBatch(EMPTY, ms).Success?
  {
    hide ApplyBatch, Acceptable, Polled;
    NothingFromLog(log);
    PolledIsConsistent(Fresh(log), ms, upTo);
    BatchOutcome(EMPTY, ms);
  }

  lemma {:induction false} OnePassInv(log: Log, home: Home, ms: seq<Message>, upTo: Offsets)
    requires WellKeyed(log, home) && Polled(Fresh(log), ms, upTo) && ApplyBatch(EMPTY, ms).Success?
    ensures Inv(Fresh(log).(store := ApplyBatch(EMPTY, ms).value), home)
  {
    hide Inv, ApplyBatch, WellKeyed, Polled, Acknowledges;
    var s := Fresh(log);
    InitInv(s, home);
    AcknowledgesExists(ms);
    var offsets :| Acknowledges(offsets, ms);
    var t := s.(store := ApplyBatch(EMPTY, ms).value);
    assert t == s.(store := ApplyBatch(EMPTY, ms).value, position := s.committed);
    assert Process(s, t, ms, upTo, false);
    ProcessInv(s, t, home, ms, upTo, false);
  }

  lemma {:induction false} SameKeysSameBronze(log: Log, b: map<Coord, BronzeRow>, b': map<Coord, BronzeRow>)
    requires FromLog(log, b) && FromLog(log, b')
    requires forall c :: c in b <==> c in b'
    ensures b == b'
  {
  }

  /**
   * A run, with whatever crashes, that has stored exactly the log below `upTo` ends with the
   * tables of one uninterrupted batch up to there.
   */
  lemma {:induction false} CrashFreeRunAgrees(run: seq<System>, n: nat, home: Home, ms: seq<Message>, upTo: Offsets)
    requires Run(run, home) && n < |run|
    requires Polled(Fresh(run[n].log), ms, upTo)
    requires forall c :: c in run[n].store.bronze <==> InLog(run[n].log, c) && c.offset < OffsetIn(upTo, c.tp)
    ensures ApplyBatch(EMPTY, ms) == Success(run[n].store)
  {
    hide Run, Inv, ApplyBatch, Acceptable;
    RunInv(run, home, n);
    var s := run[n];
    InvFromLog(s, home);
    InvWellKeyed(s, home);
    forall i | 0 <= i < |ms| ensures Acceptable(ms[i]) {
      assert ms[i].coord in s.store.bronze;
    }
    OnePass(s.log, home, ms, upTo);
    var t := Fresh(s.log).(store := ApplyBatch(EMPTY, ms).value);
    InvFromLog(t, home);
    forall c ensures c in t.store.bronze <==> c in s.store.bronze {
      if InLog(s.log, c) && c.offset < OffsetIn(upTo, c.tp) {
        assert OffsetIn(Fresh(s.log).position, c.tp) <= c.offset;
      }
    }
    SameKeysSameBronze(s.log, s.store.bronze, t.store.bronze);
    SilverIsRebuildable(s, t, home);
  }

  /** In particular a read log of which nothing was removed leaves the tables of one batch over all of it. */
  lemma {:induction false} ReadLogIsOneBatch(run: seq<System>, n: nat, home: Home, ms: seq<Message>, upTo: Offsets)
    requires Run(run, home) && n < |run|
    requires AllRead(run[n]) && run[n].removed == {}
    requires Polled(Fresh(run[n].log), ms, upTo)
    requires forall tp :: OffsetIn(upTo, tp) == |Entries(run[n].log, tp)|
    ensures ApplyBatch(EMPTY, ms) == Success(run[n].store)
  {
    hide Run, ApplyBatch, AllRead, Polled;
    BronzeIsLog(run, home, n);
    CrashFreeRunAgrees(run, n, home, ms, upTo);
  }

  lemma {:induction false} InvWellKeyed(s: System, home: Home)
    requires Inv(s, home)
    ensures WellKeyed(s.log, home) && SilverProjectsBronze(s.store)
  {
    hide FromLog, SilverProjectsBronze, NoGaps, Covered, InOrderFold, WellKeyed;
  }

  // ----- The newest record of a customer -----

  /** The record at `c` is a data event about `k` that no data event of the full log about `k` beats. */
  ghost predicate NewestInLog(log: Log, c: Coord, k: Key) {
    && DataAt(log, c, k)
    && forall c' :: DataAt(log, c', k) ==>
         LsnOf(log, c') < LsnOf(log, c) || (LsnOf(log, c') == LsnOf(log, c) && c'.offset <= c.offset)
  }

  /** Nothing with key `k` follows `c` in its partition. */
  ghost predicate LastOfKey(log: Log, c: Coord, k: Key) {
    forall c': Coord :: InLog(log, c') && c'.tp == c.tp && c.offset < c'.offset ==> EntryAt(log, c').key != Some(k)
  }

  function LiveAttrs(log: Log, c: Coord): Option<Attrs>
    requires InLog(log, c) && Acceptable(MessageAt(log, c)) && IsDataOp(BronzeOf(MessageAt(log, c)).op)
  {
    var e := EntryAt(log, c).value.value;
    if e.op.value == 'd' then None else Some(e.after.value.attrs)
  }

  /** Once read, the newest event of the full log decides the view. */
  lemma {:induction false} NewestReadDecides(s: System, home: Home, c: Coord, k: Key)
    requires Inv(s, home) && NewestInLog(s.log, c, k) && c in s.store.bronze
    ensures Lookup(CustomersCurrent(s.store.silver), k) == LiveAttrs(s.log, c)
  {
    hide Inv, SilverProjectsBronze, WellKeyed, CustomersCurrent, OnePartitionPerKey;
    InvFromLog(s, home);
    InvWellKeyed(s, home);
    LogIsOnePartitionPerKey(s, home);
    NewestInBronze(s, c, k);
    ViewIsNewestBronzeEvent(s.store, k);
  }

  lemma {:induction false} NewestInBronze(s: System, c: Coord, k: Key)
    requires FromLog(s.log, s.store.bronze) && NewestInLog(s.log, c, k) && c in s.store.bronze
    ensures NewestOf(s.store.bronze, c, k)
  {
    hide Acceptable;
    forall c' | c' in s.store.bronze && About(s.store.bronze[c'], k) ensures DataAt(s.log, c', k) {
    }
  }

  /** Every data event about `k` still in the topic has been read. */
  ghost predicate NothingUnread(s: System, k: Key) {
    forall c :: DataAt(s.log, c, k) && c !in s.removed ==> c in s.store.bronze
  }

  /**
   * Compaction is invisible for a key whose newest record is a data event with the key's
   * greatest LSN: once the key is read, the view shows that event whatever was removed before.
   */
  lemma {:induction false} CompactionTransparent(states: seq<System>, home: Home, n: nat, c: Coord, k: Key)
    requires Run(states, home) && n < |states| && NothingUnread(states[n], k)
    requires NewestInLog(states[n].log, c, k) && LastOfKey(states[n].log, c, k)
    ensures Lookup(CustomersCurrent(states[n].store.silver), k) == LiveAttrs(states[n].log, c)
  {
    hide Run, SilverProjectsBronze, NoGaps, Covered, InOrderFold, FromLog, Acceptable;
    RunInv(states, home, n);
    var s := states[n];
    assert EntryAt(s.log, c).key == Some(k);
    assert !Superseded(s.log, c);
    assert c !in s.removed;
    NewestReadDecides(s, home, c, k);
  }

  // ----- Deletes and compaction -----

  /** The log gained no data event about `k`. */
  ghost predicate NoNewData(log: Log, log': Log, k: Key) {
    forall c :: DataAt(log', c, k) ==> DataAt(log, c, k)
  }

  /** What later states of a run keep of an earlier one. */
  ghost predicate Later(s: System, s': System) {
    && (forall c :: InLog(s.log, c) ==> InLog(s'.log, c) && EntryAt(s'.log, c) == EntryAt(s.log, c))
    && s.removed <= s'.removed
    && (forall c :: c in s.store.bronze ==> c in s'.store.bronze && s'.store.bronze[c] == s.store.bronze[c])
    && (forall c :: c in s'.store.bronze && c !in s.store.bronze ==> c !in s.removed)
  }

  lemma {:induction false} ProcessIsLater(s: System, s': System, ms: seq<Message>, position': Offsets, acked: bool)
    requires FromLog(s.log, s.store.bronze) && Process(s, s', ms, position', acked)
    ensures Later(s, s')
  {
    hide ApplyBatch, Acceptable;
    BatchExtends(s, ms, position');
    PrefixRecorded(s, ms, position', |ms|);
    assert ms[..|ms|] == ms;
  }

  lemma {:induction false} NextIsLater(s: System, s': System, home: Home)
    requires FromLog(s.log, s.store.bronze) && Next(s, s', home)
    ensures Later(s, s')
  {
    hide Process, FromLog, WellKeyed;
    if ms, position', acked :| Process(s, s', ms, position', acked) {
      ProcessIsLater(s, s', ms, position', acked);
    }
  }

  lemma {:induction false} LaterIsReflexive(s: System)
    ensures Later(s, s)
  {
  }

  lemma {:induction false} LaterIsTransitive(s: System, t: System, u: System)
    requires Later(s, t) && Later(t, u)
    ensures Later(s, u)
  {
  }

  lemma {:induction false} StepIsLater(states: seq<System>, home: Home, j: nat)
    requires Run(states, home) && j + 1 < |states|
    ensures Later(states[j], states[j + 1])
  {
    hide Later, Next;
    RunInv(states, home, j);
    NextIsLater(states[j], states[j + 1], home);
  }

  lemma {:induction false} RunIsLater(states: seq<System>, home: Home, i: nat, j: nat)
    requires Run(states, home) && i <= j < |states|
    ensures Later(states[i], states[j])
  {
    hide Later, Run;
    if i == j {
      LaterIsReflexive(states[i]);
    } else {
      RunIsLater(states, home, i, j - 1);
      StepIsLater(states, home, j - 1);
      LaterIsTransitive(states[i], states[j - 1], states[j]);
    }
  }

  /** With nothing about `k` left to read and nothing new written, its view row is frozen. */
  lemma {:induction false} ViewIsFrozen(states: seq<System>, home: Home, i: nat, j: nat, k: Key)
    requires Run(states, home) && i <= j < |states|
    requires NothingUnread(states[i], k) && NoNewData(states[i].log, states[j].log, k)
    ensures Lookup(CustomersCurrent(states[i].store.silver), k) == Lookup(CustomersCurrent(states[j].store.silver), k)
  {
    hide Run, Inv, CustomersCurrent, NewestOf, WellKeyed, SilverProjectsBronze, OnePartitionPerKey, FromLog;
    RunInv(states, home, i);
    RunInv(states, home, j);
    RunIsLater(states, home, i, j);
    var s, t := states[i], states[j];
    InvWellKeyed(s, home);
    InvWellKeyed(t, home);
    InvFromLog(s, home);
    InvFromLog(t, home);
    LogIsOnePartitionPerKey(s, home);
    LogIsOnePartitionPerKey(t, home);
    ViewIsNewestBronzeEvent(s.store, k);
    ViewIsNewestBronzeEvent(t.store, k);
    SameNewest(s, t, k);
    if c :| NewestOf(s.store.bronze, c, k) {
      NewestIsData(s.store.bronze, c, k);
      assert NewestOf(t.store.bronze, c, k);
    }
    LookupTells(CustomersCurrent(s.store.silver), k);
    LookupTells(CustomersCurrent(t.store.silver), k);
  }

  lemma {:induction false} NewestIsData(bronze: map<Coord, BronzeRow>, c: Coord, k: Key)
    requires NewestOf(bronze, c, k)
    ensures c in bronze && About(bronze[c], k)
  {
  }

  lemma {:induction false} SameNewest(s: System, t: System, k: Key)
    requires FromLog(s.log, s.store.bronze) && FromLog(t.log, t.store.bronze)
    requires Later(s, t) && NothingUnread(s, k) && NoNewData(s.log, t.log, k)
    ensures forall c :: NewestOf(s.store.bronze, c, k) <==> NewestOf(t.store.bronze, c, k)
  {
    hide Acceptable, About;
    forall c | c in t.store.bronze && About(t.store.bronze[c], k) ensures c in s.store.bronze {
      assert DataAt(t.log, c, k);
    }
  }

  /** A data event about `k` that has been read or can still be read. */
  ghost predicate Readable(s: System, c: Coord, k: Key) {
    DataAt(s.log, c, k) && (c in s.store.bronze || c !in s.removed)
  }

  ghost predicate NewestReadable(s: System, c: Coord, k: Key) {
    && Readable(s, c, k)
    && forall c' :: Readable(s, c', k) ==>
         LsnOf(s.log, c') < LsnOf(s.log, c) || (LsnOf(s.log, c') == LsnOf(s.log, c) && c'.offset <= c.offset)
  }

  /** The step removes no data event about `k` before it is read. */
  ghost predicate LosesNothingUnread(s: System, s': System, k: Key) {
    forall c :: DataAt(s.log, c, k) && c in s'.removed && c !in s.removed ==> c in s.store.bronze
  }

  ghost predicate NoneLostUnread(states: seq<System>, i: nat, j: nat, k: Key)
    requires i <= j < |states|
  {
    forall n :: i <= n < j ==> LosesNothingUnread(states[n], states[n + 1], k)
  }

  lemma {:induction false} StaysReadable(states: seq<System>, home: Home, i: nat, j: nat, c: Coord, k: Key)
    requires Run(states, home) && i <= j < |states| && NoneLostUnread(states, i, j, k)
    requires Readable(states[i], c, k)
    ensures Readable(states[j], c, k)
  {
    hide Run, Acceptable;
    if i == j {
    } else {
      StaysReadable(states, home, i, j - 1, c, k);
      StepIsLater(states, home, j - 1);
      assert LosesNothingUnread(states[j - 1], states[j - 1 + 1], k);
    }
  }

  /** What has been read about `k` at the end is what could be read at the start. */
  lemma {:induction false} ReadIsReadable(states: seq<System>, home: Home, i: nat, j: nat, k: Key)
    requires Run(states, home) && i <= j < |states| && NoneLostUnread(states, i, j, k)
    requires NothingUnread(states[j], k) && NoNewData(states[i].log, states[j].log, k)
    ensures forall c :: c in states[j].store.bronze && About(states[j].store.bronze[c], k) <==> Readable(states[i], c, k)
  {
    hide Run, Inv, NoneLostUnread, Acceptable, About;
    RunInv(states, home, j);
    InvFromLog(states[j], home);
    RunIsLater(states, home, i, j);
    forall c ensures c in states[j].store.bronze && About(states[j].store.bronze[c], k) <==> Readable(states[i], c, k) {
      if Readable(states[i], c, k) {
        StaysReadable(states, home, i, j, c, k);
      }
      if c in states[j].store.bronze && About(states[j].store.bronze[c], k) {
        assert DataAt(states[j].log, c, k);
        assert DataAt(states[i].log, c, k);
      }
    }
  }

  lemma {:induction false} NewestIsReadable(states: seq<System>, home: Home, i: nat, j: nat, c: Coord, k: Key)
    requires Run(states, home) && i <= j < |states| && NoneLostUnread(states, i, j, k)
    requires NothingUnread(states[j], k) && NoNewData(states[i].log, states[j].log, k)
    requires NewestOf(states[j].store.bronze, c, k)
    ensures NewestReadable(states[i], c, k)
    ensures LiveAttrs(states[i].log, c)
      == (if states[j].store.bronze[c].op == 'd' then None else Some(states[j].store.bronze[c].after.value.attrs))
  {
    hide Run, Inv, NoneLostUnread;
    RunInv(states, home, j);
    InvFromLog(states[j], home);
    RunIsLater(states, home, i, j);
    ReadIsReadable(states, home, i, j, k);
  }

  lemma {:induction false} NewestReadableIsUnique(s: System, c: Coord, c': Coord, k: Key, home: Home)
    requires WellKeyed(s.log, home) && NewestReadable(s, c, k) && NewestReadable(s, c', k)
    ensures c == c'
  {
    assert EntryAt(s.log, c).key == Some(k) && EntryAt(s.log, c').key == Some(k);
  }

  /**
   * What compaction can do to the view. Take any state after which no data event about the
   * key is written or lost unread. Once the key is read, it is missing from the view iff the
   * newest event that was read or retained in that state is a delete, or there was none.
   */
  lemma {:induction false} CompactedView(states: seq<System>, home: Home, i: nat, j: nat, k: Key)
    requires Run(states, home) && i <= j < |states| && NoneLostUnread(states, i, j, k)
    requires NothingUnread(states[j], k) && NoNewData(states[i].log, states[j].log, k)
    ensures k !in CustomersCurrent(states[j].store.silver) <==>
      || (forall c :: !Readable(states[i], c, k))
      || (exists c :: NewestReadable(states[i], c, k) && LiveAttrs(states[i].log, c).None?)
  {
    hide Run, Inv, NoneLostUnread, NothingUnread, NoNewData, Readable, NewestReadable, DataAt, About, Acceptable,
      OnePartitionPerKey, SilverProjectsBronze, WellKeyed, FromLog;
    RunInv(states, home, i);
    RunInv(states, home, j);
    InvFromLog(states[j], home);
    InvWellKeyed(states[j], home);
    InvWellKeyed(states[i], home);
    LogIsOnePartitionPerKey(states[j], home);
    ViewIsNewestBronzeEvent(states[j].store, k);
    ReadIsReadable(states, home, i, j, k);
    if c :| NewestOf(states[j].store.bronze, c, k) {
      NewestIsReadable(states, home, i, j, c, k);
      assert Readable(states[i], c, k) by { ReadableOfNewest(states[i], c, k); }
      forall c' | NewestReadable(states[i], c', k) ensures c' == c {
        NewestReadableIsUnique(states[i], c, c', k, home);
      }
      LookupTells(CustomersCurrent(states[j].store.silver), k);
    } else {
      forall c ensures !NewestReadable(states[i], c, k) {
        if NewestReadable(states[i], c, k) {
          ReadableOfNewest(states[i], c, k);
        }
      }
    }
  }

  lemma {:induction false} ReadableOfNewest(s: System, c: Coord, k: Key)
    requires NewestReadable(s, c, k)
    ensures Readable(s, c, k)
  {
  }

  lemma {:induction false} LookupTells<V>(m: map<Key, V>, k: Key)
    ensures k in m <==> Lookup(m, k).Some?
  {
  }

  /** A delete that is the newest event of the log and was read or retained is honoured; a lost one is not seen. */
  lemma {:induction false} CompactedDelete(states: seq<System>, home: Home, i: nat, j: nat, d: Coord, k: Key)
    requires Run(states, home) && i <= j < |states| && NoneLostUnread(states, i, j, k)
    requires NothingUnread(states[j], k) && NoNewData(states[i].log, states[j].log, k)
    requires NewestInLog(states[i].log, d, k) && LiveAttrs(states[i].log, d).None?
    ensures d in states[i].store.bronze || d !in states[i].removed ==>
      k !in CustomersCurrent(states[j].store.silver)
    ensures d in states[i].removed && d !in states[i].store.bronze ==>
      (k in CustomersCurrent(states[j].store.silver) <==>
       exists u :: u != d && NewestReadable(states[i], u, k) && LiveAttrs(states[i].log, u).Some?)
  {
    hide Run, Inv, NoneLostUnread, NothingUnread, NoNewData, Acceptable, About, WellKeyed, CustomersCurrent;
    CompactedView(states, home, i, j, k);
    if d in states[i].store.bronze || d !in states[i].removed {
      assert NewestReadable(states[i], d, k);
    } else {
      assert !Readable(states[i], d, k);
      RunInv(states, home, i);
      InvWellKeyed(states[i], home);
      ReadableHasNewest(states, home, i, j, k);
      forall u, u' | NewestReadable(states[i], u, k) && NewestReadable(states[i], u', k) ensures u == u' {
        NewestReadableIsUnique(states[i], u, u', k, home);
      }
    }
  }

  lemma {:induction false} ReadableHasNewest(states: seq<System>, home: Home, i: nat, j: nat, k: Key)
    requires Run(states, home) && i <= j < |states| && NoneLostUnread(states, i, j, k)
    requires NothingUnread(states[j], k) && NoNewData(states[i].log, states[j].log, k)
    ensures (exists c :: Readable(states[i], c, k)) <==> (exists c :: NewestReadable(states[i], c, k))
  {
    hide Run, Inv, NoneLostUnread, NothingUnread, NoNewData, Readable, NewestReadable, DataAt, About, Acceptable,
      OnePartitionPerKey, SilverProjectsBronze, WellKeyed, FromLog;
    RunInv(states, home, j);
    InvFromLog(states[j], home);
    InvWellKeyed(states[j], home);
    LogIsOnePartitionPerKey(states[j], home);
    ViewIsNewestBronzeEvent(states[j].store, k);
    ReadIsReadable(states, home, i, j, k);
    if c :| Readable(states[i], c, k) {
      var c' :| NewestOf(states[j].store.bronze, c', k);
      NewestIsReadable(states, home, i, j, c', k);
    }
    if c :| NewestReadable(states[i], c, k) {
      ReadableOfNewest(states[i], c, k);
    }
  }
}
