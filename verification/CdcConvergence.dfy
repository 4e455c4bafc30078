/**
 * From the source table to the live view: Debezium's in-order, at-least-once emission of
 * the committed changes, and the equality that cdc/reconcile_customers.py checks.
 */
module CdcConvergence {
  import opened Prelude
  import opened CdcStore
  import opened CdcMaterializer
  import opened CdcSystem
  import opened CdcTheorems

  /** One committed change of public.customers, or a row read by the initial snapshot (`r`). */
  datatype Change = Change(key: Key, op: char, lsn: int, tsMs: int, attrs: Attrs)

  /** Source changes carry a key and never step back in LSN along one key. */
  ghost predicate ValidHistory(h: seq<Change>) {
    && (forall i :: 0 <= i < |h| ==> h[i].key != "" && IsDataOp(h[i].op))
    && (forall i, j :: 0 <= i < j < |h| && h[i].key == h[j].key ==> h[i].lsn <= h[j].lsn)
  }

  /** The live source rows after the changes. */
  function SourceTable(h: seq<Change>): map<Key, Attrs> {
    if h == [] then map[]
    else
      var t, last := SourceTable(h[..|h| - 1]), h[|h| - 1];
      if last.op == 'd' then t - {last.key} else t[last.key := last.attrs]
  }

  /** A delete is two records: the event, and a tombstone for compaction. */
  function RecordsOf(ch: Change): seq<Entry> {
    if ch.op == 'd' then
      [Entry(Some(ch.key), Some(Event(Some('d'), Some(ch.lsn), Some(ch.tsMs), None, Some(Image(Some(ch.key), ch.attrs)), None))),
       Entry(Some(ch.key), None)]
    else
      [Entry(Some(ch.key), Some(Event(Some(ch.op), Some(ch.lsn), Some(ch.tsMs), None, None, Some(Image(Some(ch.key), ch.attrs)))))]
  }

  /**
   * The order in which the connector emitted history indices: it may rewind to any earlier
   * change after a restart, but it never skips one.
   */
  ghost predicate AtLeastOnce(h: seq<Change>, emitted: seq<nat>) {
    && (forall j :: 0 <= j < |emitted| ==> emitted[j] < |h|)
    && (emitted != [] ==> emitted[0] == 0)
    && (forall j :: 0 <= j < |emitted| - 1 ==> emitted[j + 1] <= emitted[j] + 1)
  }

  ghost predicate CaughtUp(h: seq<Change>, emitted: seq<nat>) {
    if h == [] then emitted == [] else emitted != [] && emitted[|emitted| - 1] == |h| - 1
  }

  function Append(log: Log, tp: TopicPartition, es: seq<Entry>): Log {
    log[tp := Entries(log, tp) + es]
  }

  /** The topic after the emission. */
  ghost function Topic(h: seq<Change>, emitted: seq<nat>, home: Home): Log
    requires forall j :: 0 <= j < |emitted| ==> emitted[j] < |h|
  {
    if emitted == [] then map[]
    else
      var last := h[emitted[|emitted| - 1]];
      Append(Topic(h, emitted[..|emitted| - 1], home), home(last.key), RecordsOf(last))
  }

  // ----- What a topic of this kind looks like -----

  /** The entry at `c` is the data record of `ch`. */
  predicate IsRecordOf(log: Log, c: Coord, ch: Change) {
    InLog(log, c) && EntryAt(log, c) == RecordsOf(ch)[0]
  }

  /** Every entry of the topic is a record of some change, in its key's partition. */
  ghost predicate FromHistory(h: seq<Change>, log: Log, home: Home) {
    forall c :: InLog(log, c) ==>
      exists i :: 0 <= i < |h| && c.tp == home(h[i].key) && EntryAt(log, c) in RecordsOf(h[i])
  }

  /** Change `q` has the last data record about its key, at `c`; only a delete has its tombstone behind it. */
  ghost predicate LastRecord(h: seq<Change>, log: Log, c: Coord, q: int) {
    && 0 <= q < |h|
    && IsRecordOf(log, c, h[q])
    && (forall c': Coord :: InLog(log, c') && c'.tp == c.tp && c.offset < c'.offset ==>
          EntryAt(log, c').key == Some(h[q].key) ==> h[q].op == 'd' && EntryAt(log, c').value.None?)
  }

  /** The newest record about the key of change `p` is that change or a later one. */
  ghost predicate Reached(h: seq<Change>, log: Log, home: Home, p: nat)
    requires p < |h|
  {
    exists c: Coord, q :: p <= q && c.tp == home(h[p].key) && LastRecord(h, log, c, q) && h[q].key == h[p].key
  }

  ghost predicate ReachedUpTo(h: seq<Change>, log: Log, home: Home, e: int) {
    forall p :: 0 <= p <= e && p < |h| ==> Reached(h, log, home, p)
  }

  lemma {:induction false} AppendEntries(log: Log, tp: TopicPartition, es: seq<Entry>)
    ensures forall c :: InLog(log, c) ==> InLog(Append(log, tp, es), c) && EntryAt(Append(log, tp, es), c) == EntryAt(log, c)
    ensures forall c :: InLog(Append(log, tp, es), c) && !InLog(log, c) ==>
      c.tp == tp && |Entries(log, tp)| <= c.offset < |Entries(log, tp)| + |es|
      && EntryAt(Append(log, tp, es), c) == es[c.offset - |Entries(log, tp)|]
  {
  }

  lemma {:induction false} EmitOne(h: seq<Change>, log: Log, home: Home, e: int, e': nat)
    requires FromHistory(h, log, home) && ReachedUpTo(h, log, home, e)
    requires e' < |h| && e' <= e + 1
    ensures var log' := Append(log, home(h[e'].key), RecordsOf(h[e']));
      FromHistory(h, log', home) && ReachedUpTo(h, log', home, e')
  {
    var k := h[e'].key;
    var tp := home(k);
    var log' := Append(log, tp, RecordsOf(h[e']));
    AppendEntries(log, tp, RecordsOf(h[e']));
    assert FromHistory(h, log', home) by {
      forall c | InLog(log', c)
        ensures exists i :: 0 <= i < |h| && c.tp == home(h[i].key) && EntryAt(log', c) in RecordsOf(h[i])
      {
        if !InLog(log, c) {
          assert EntryAt(log', c) in RecordsOf(h[e']);
        }
      }
    }
    var at := Coord(tp, |Entries(log, tp)|);
    assert LastRecord(h, log', at, e');
    forall p | 0 <= p <= e' && p < |h| ensures Reached(h, log', home, p) {
      if h[p].key == k {
        assert p <= e' && at.tp == home(h[p].key) && h[e'].key == h[p].key;
      } else {
        assert Reached(h, log, home, p);
        var c: Coord, q :| p <= q && c.tp == home(h[p].key) && LastRecord(h, log, c, q) && h[q].key == h[p].key;
        LastRecordSurvives(h, log, home, e', c, q);
      }
    }
  }

  lemma {:induction false} LastRecordSurvives(h: seq<Change>, log: Log, home: Home, e': nat, c: Coord, q: int)
    requires e' < |h| && LastRecord(h, log, c, q) && h[q].key != h[e'].key
    ensures LastRecord(h, Append(log, home(h[e'].key), RecordsOf(h[e'])), c, q)
  {
    AppendEntries(log, home(h[e'].key), RecordsOf(h[e']));
  }

  lemma {:induction false} TopicShape(h: seq<Change>, emitted: seq<nat>, home: Home)
    requires AtLeastOnce(h, emitted)
    ensures FromHistory(h, Topic(h, emitted, home), home)
    ensures ReachedUpTo(h, Topic(h, emitted, home), home, if emitted == [] then -1 else emitted[|emitted| - 1])
  {
    if emitted == [] {
    } else {
      var n := |emitted| - 1;
      TopicShape(h, emitted[..n], home);
      assert n > 0 ==> emitted[n - 1 + 1] <= emitted[n - 1] + 1;
      EmitOne(h, Topic(h, emitted[..n], home), home, if n == 0 then -1 else emitted[n - 1], emitted[n]);
    }
  }

  lemma {:induction false} RecordIsData(h: seq<Change>, log: Log, c: Coord, i: int)
    requires ValidHistory(h) && 0 <= i < |h| && InLog(log, c) && EntryAt(log, c) in RecordsOf(h[i])
    ensures EntryAt(log, c).key == Some(h[i].key)
    ensures forall k :: DataAt(log, c, k) <==> k == h[i].key && EntryAt(log, c) == RecordsOf(h[i])[0]
    ensures EntryAt(log, c) == RecordsOf(h[i])[0] ==>
      LsnOf(log, c) == h[i].lsn && LiveAttrs(log, c) == if h[i].op == 'd' then None else Some(h[i].attrs)
  {
  }

  lemma {:induction false} TopicIsWellKeyed(h: seq<Change>, log: Log, home: Home)
    requires ValidHistory(h) && FromHistory(h, log, home)
    ensures WellKeyed(log, home)
  {
    forall c | InLog(log, c)
      ensures EntryAt(log, c).key.Some? && home(EntryAt(log, c).key.value) == c.tp
      ensures forall k :: DataAt(log, c, k) ==> EntryAt(log, c).key == Some(k)
    {
      var i :| 0 <= i < |h| && c.tp == home(h[i].key) && EntryAt(log, c) in RecordsOf(h[i]);
      RecordIsData(h, log, c, i);
    }
  }

  /** `p` is the last change of `k`. */
  ghost predicate LastChange(h: seq<Change>, k: Key, p: int) {
    0 <= p < |h| && h[p].key == k && forall i :: p < i < |h| ==> h[i].key != k
  }

  lemma {:induction false} SourceByLastChange(h: seq<Change>, k: Key)
    ensures forall p :: LastChange(h, k, p) ==>
      Lookup(SourceTable(h), k) == if h[p].op == 'd' then None else Some(h[p].attrs)
    ensures (exists p :: LastChange(h, k, p)) || (k !in SourceTable(h) && forall i :: 0 <= i < |h| ==> h[i].key != k)
  {
    if h == [] {
    } else {
      var n := |h| - 1;
      SourceByLastChange(h[..n], k);
      if h[n].key == k {
        assert LastChange(h, k, n);
      } else {
        if p :| LastChange(h[..n], k, p) { assert LastChange(h, k, p); }
        forall p | LastChange(h, k, p) ensures LastChange(h[..n], k, p) {
        }
      }
    }
  }

  lemma {:induction false} NothingBeatsLastRecord(
      h: seq<Change>, log: Log, home: Home, c: Coord, c': Coord, k: Key, p: int)
    requires ValidHistory(h) && FromHistory(h, log, home) && LastChange(h, k, p)
    requires c.tp == home(k) && LastRecord(h, log, c, p) && DataAt(log, c, k) && LsnOf(log, c) == h[p].lsn
    requires DataAt(log, c', k)
    ensures LsnOf(log, c') < LsnOf(log, c) || (LsnOf(log, c') == LsnOf(log, c) && c'.offset <= c.offset)
  {
    hide Acceptable;
    var i :| 0 <= i < |h| && c'.tp == home(h[i].key) && EntryAt(log, c') in RecordsOf(h[i]);
    RecordIsData(h, log, c', i);
    assert i <= p && h[i].lsn <= h[p].lsn;
    assert EntryAt(log, c').value.Some?;
  }

  lemma {:induction false} FindLastRecord(h: seq<Change>, log: Log, home: Home, k: Key, p: int) returns (c: Coord)
    requires ReachedUpTo(h, log, home, |h| - 1) && LastChange(h, k, p)
    ensures c.tp == home(k) && LastRecord(h, log, c, p)
  {
    assert Reached(h, log, home, p);
    var q;
    c, q :| p <= q && c.tp == home(h[p].key) && LastRecord(h, log, c, q) && h[q].key == h[p].key;
  }

  /** The topic's newest event about `k`, at `c`, is `ch`; nothing follows it unless it is a delete. */
  ghost predicate Decides(log: Log, c: Coord, k: Key, ch: Change) {
    && NewestInLog(log, c, k)
    && LiveAttrs(log, c) == (if ch.op == 'd' then None else Some(ch.attrs))
    && (ch.op != 'd' ==> LastOfKey(log, c, k))
  }

  lemma {:induction false} LastRecordIsNewest(h: seq<Change>, log: Log, home: Home, c: Coord, k: Key, p: int)
    requires ValidHistory(h) && FromHistory(h, log, home) && LastChange(h, k, p)
    requires c.tp == home(k) && LastRecord(h, log, c, p)
    ensures Decides(log, c, k, h[p])
  {
    RecordIsData(h, log, c, p);
    forall c' | DataAt(log, c', k)
      ensures LsnOf(log, c') < LsnOf(log, c) || (LsnOf(log, c') == LsnOf(log, c) && c'.offset <= c.offset)
    {
      NothingBeatsLastRecord(h, log, home, c, c', k, p);
    }
  }

  /** The newest event of the topic about a key is its last source change. */
  lemma {:induction false} NewestIsLastChange(
      h: seq<Change>, emitted: seq<nat>, home: Home, k: Key, p: int) returns (c: Coord)
    requires ValidHistory(h) && AtLeastOnce(h, emitted) && CaughtUp(h, emitted) && LastChange(h, k, p)
    ensures Decides(Topic(h, emitted, home), c, k, h[p])
  {
    TopicShape(h, emitted, home);
    c := FindLastRecord(h, Topic(h, emitted, home), home, k, p);
    LastRecordIsNewest(h, Topic(h, emitted, home), home, c, k, p);
  }

  // ----- Convergence -----

  /**
   * Whatever was re-emitted, replayed, crashed or rebalanced on the way: once the connector
   * has caught up and every record has been read, the live view is the source table.
   */
  lemma {:induction false} CustomersConverge(states: seq<System>, home: Home, n: nat, h: seq<Change>, emitted: seq<nat>)
    requires Run(states, home) && n < |states|
    requires ValidHistory(h) && AtLeastOnce(h, emitted) && CaughtUp(h, emitted)
    requires states[n].log == Topic(h, emitted, home)
    requires AllRead(states[n]) && states[n].removed == {}
    ensures CustomersCurrent(states[n].store.silver) == SourceTable(h)
  {
    var view := CustomersCurrent(states[n].store.silver);
    forall k ensures Lookup(view, k) == Lookup(SourceTable(h), k) {
      SourceByLastChange(h, k);
      if p :| LastChange(h, k, p) {
        var c := NewestIsLastChange(h, emitted, home, k, p);
        RunInv(states, home, n);
        NewestReadDecides(states[n], home, c, k);
      } else {
        UnchangedKeyIsAbsent(states, home, n, h, emitted, k);
      }
    }
    forall k | k in view || k in SourceTable(h)
      ensures k in view && k in SourceTable(h) && view[k] == SourceTable(h)[k]
    {
      assert Lookup(view, k) == Lookup(SourceTable(h), k);
    }
  }

  // ----- Convergence while the connector is behind -----

  ghost predicate Indexed(h: seq<Change>, emitted: seq<nat>) {
    forall j :: 0 <= j < |emitted| ==> emitted[j] < |h|
  }

  /** Where the data record of the `e`-th emission went. */
  ghost function EmittedAt(h: seq<Change>, emitted: seq<nat>, home: Home, e: nat): Coord
    requires Indexed(h, emitted) && e < |emitted|
  {
    var tp := home(h[emitted[e]].key);
    Coord(tp, |Entries(Topic(h, emitted[..e], home), tp)|)
  }

  lemma {:induction false} TopicGrows(h: seq<Change>, emitted: seq<nat>, home: Home, e: nat)
    requires Indexed(h, emitted) && e <= |emitted|
    ensures var log, log' := Topic(h, emitted[..e], home), Topic(h, emitted, home);
      forall c :: InLog(log, c) ==> InLog(log', c) && EntryAt(log', c) == EntryAt(log, c)
  {
    if e == |emitted| {
      assert emitted[..e] == emitted;
    } else {
      var front := emitted[..|emitted| - 1];
      assert front[..e] == emitted[..e];
      TopicGrows(h, front, home, e);
      var last := h[emitted[|emitted| - 1]];
      AppendEntries(Topic(h, front, home), home(last.key), RecordsOf(last));
    }
  }

  /** The data record of an emission stays at its place. */
  lemma {:induction false} EmissionStays(h: seq<Change>, emitted: seq<nat>, home: Home, e: nat)
    requires Indexed(h, emitted) && e < |emitted|
    ensures IsRecordOf(Topic(h, emitted, home), EmittedAt(h, emitted, home, e), h[emitted[e]])
  {
    var upTo := emitted[..e + 1];
    assert upTo[..e] == emitted[..e] && upTo[e] == emitted[e];
    var ch := h[emitted[e]];
    var log, at := Topic(h, emitted[..e], home), EmittedAt(h, emitted, home, e);
    assert Topic(h, upTo, home) == Append(log, home(ch.key), RecordsOf(ch));
    assert IsRecordOf(Topic(h, upTo, home), at, ch);
    TopicGrows(h, emitted, home, e + 1);
  }

  /** Later emissions to one partition have greater offsets. */
  lemma {:induction false} EmissionsAreOrdered(h: seq<Change>, emitted: seq<nat>, home: Home, e: nat, e': nat)
    requires Indexed(h, emitted) && e < e' < |emitted|
    requires home(h[emitted[e]].key) == home(h[emitted[e']].key)
    ensures EmittedAt(h, emitted, home, e).offset < EmittedAt(h, emitted, home, e').offset
  {
    hide Topic;
    var upTo := emitted[..e'];
    assert upTo[e] == emitted[e] && upTo[..e] == emitted[..e];
    EmissionStays(h, upTo, home, e);
    assert EmittedAt(h, upTo, home, e) == EmittedAt(h, emitted, home, e);
  }

  /** `c` holds a record of the `e`-th emission, the data record if `c` is its first. */
  ghost predicate EmittedBy(h: seq<Change>, emitted: seq<nat>, home: Home, c: Coord, e: int)
    requires Indexed(h, emitted)
  {
    && 0 <= e < |emitted|
    && InLog(Topic(h, emitted, home), c)
    && EntryAt(Topic(h, emitted, home), c) in RecordsOf(h[emitted[e]])
    && (EntryAt(Topic(h, emitted, home), c).value.Some? ==> c == EmittedAt(h, emitted, home, e))
  }

  lemma {:induction false} EveryRecordIsEmitted(h: seq<Change>, emitted: seq<nat>, home: Home, c: Coord) returns (e: nat)
    requires Indexed(h, emitted) && InLog(Topic(h, emitted, home), c)
    ensures EmittedBy(h, emitted, home, c, e)
  {
    if emitted == [] {
    } else {
      var n := |emitted| - 1;
      var front, last := emitted[..n], h[emitted[n]];
      AppendEntries(Topic(h, front, home), home(last.key), RecordsOf(last));
      if InLog(Topic(h, front, home), c) {
        e := EveryRecordIsEmitted(h, front, home, c);
        assert front[..e] == emitted[..e];
      } else {
        e := n;
      }
    }
  }

  /** Among the emissions about `k`, the `e`-th is the last one of those with the greatest LSN. */
  ghost predicate Decisive(h: seq<Change>, emitted: seq<nat>, k: Key, e: nat)
    requires Indexed(h, emitted)
  {
    && e < |emitted| && h[emitted[e]].key == k
    && forall e' :: 0 <= e' < |emitted| && h[emitted[e']].key == k ==>
         h[emitted[e']].lsn < h[emitted[e]].lsn || (h[emitted[e']].lsn == h[emitted[e]].lsn && e' <= e)
  }

  lemma {:induction false} DecisiveIsNewest(h: seq<Change>, emitted: seq<nat>, home: Home, k: Key, e: nat)
    requires ValidHistory(h) && Indexed(h, emitted) && Decisive(h, emitted, k, e)
    ensures var log, c, ch := Topic(h, emitted, home), EmittedAt(h, emitted, home, e), h[emitted[e]];
      NewestInLog(log, c, k) && LiveAttrs(log, c) == if ch.op == 'd' then None else Some(ch.attrs)
  {
    hide Topic, EmittedAt, Acceptable, LsnOf, LiveAttrs, RecordsOf;
    var log, c := Topic(h, emitted, home), EmittedAt(h, emitted, home, e);
    EmissionStays(h, emitted, home, e);
    FirstIsRecord(h[emitted[e]]);
    RecordIsData(h, log, c, emitted[e]);
    assert DataAt(log, c, k);
    forall c' | DataAt(log, c', k)
      ensures LsnOf(log, c') < LsnOf(log, c) || (LsnOf(log, c') == LsnOf(log, c) && c'.offset <= c.offset)
    {
      DataIsNotNewer(h, emitted, home, k, e, c');
    }
  }

  lemma {:induction false} DataIsNotNewer(
      h: seq<Change>, emitted: seq<nat>, home: Home, k: Key, e: nat, c: Coord)
    requires ValidHistory(h) && Indexed(h, emitted) && Decisive(h, emitted, k, e)
    requires DataAt(Topic(h, emitted, home), c, k)
    ensures var lsn := LsnOf(Topic(h, emitted, home), c);
      || lsn < h[emitted[e]].lsn
      || (lsn == h[emitted[e]].lsn && c.offset <= EmittedAt(h, emitted, home, e).offset)
  {
    hide Topic, EmittedAt, Acceptable;
    var e' := DataIsEmitted(h, emitted, home, c, k);
    if e' < e {
      EmissionsAreOrdered(h, emitted, home, e', e);
    }
  }

  lemma {:induction false} FirstIsRecord(ch: Change)
    ensures RecordsOf(ch)[0] in RecordsOf(ch) && RecordsOf(ch)[0].value.Some?
  {
  }

  lemma {:induction false} DataIsEmitted(h: seq<Change>, emitted: seq<nat>, home: Home, c: Coord, k: Key) returns (e: nat)
    requires ValidHistory(h) && Indexed(h, emitted) && DataAt(Topic(h, emitted, home), c, k)
    ensures e < |emitted| && h[emitted[e]].key == k && c == EmittedAt(h, emitted, home, e)
    ensures LsnOf(Topic(h, emitted, home), c) == h[emitted[e]].lsn
  {
    hide Topic, EmittedAt;
    e := EveryRecordIsEmitted(h, emitted, home, c);
    RecordIsData(h, Topic(h, emitted, home), c, emitted[e]);
  }

  /**
   * Exactly what the view shows of a customer once all is read, however far the connector got and
   * wherever it rewound to: the change with the greatest LSN, the last emitted one if several share it.
   */
  lemma {:induction false} ViewByEmission(
      states: seq<System>, home: Home, n: nat, h: seq<Change>, emitted: seq<nat>, k: Key)
    requires Run(states, home) && n < |states|
    requires ValidHistory(h) && Indexed(h, emitted)
    requires states[n].log == Topic(h, emitted, home)
    requires AllRead(states[n]) && states[n].removed == {}
    ensures forall e: nat :: Decisive(h, emitted, k, e) ==>
      Lookup(CustomersCurrent(states[n].store.silver), k)
        == if h[emitted[e]].op == 'd' then None else Some(h[emitted[e]].attrs)
    ensures (forall e :: 0 <= e < |emitted| ==> h[emitted[e]].key != k) ==>
      k !in CustomersCurrent(states[n].store.silver)
  {
    hide Run, Topic, Inv, CustomersCurrent, LiveAttrs, EmittedAt, ValidHistory;
    RunInv(states, home, n);
    BronzeIsLog(states, home, n);
    forall e: nat | Decisive(h, emitted, k, e)
      ensures Lookup(CustomersCurrent(states[n].store.silver), k)
        == if h[emitted[e]].op == 'd' then None else Some(h[emitted[e]].attrs)
    {
      DecisiveIsNewest(h, emitted, home, k, e);
      NewestReadDecides(states[n], home, EmittedAt(h, emitted, home, e), k);
    }
    if forall e :: 0 <= e < |emitted| ==> h[emitted[e]].key != k {
      UnemittedKeyIsAbsent(states, home, n, h, emitted, k);
    }
  }

  lemma {:induction false} UnemittedKeyIsAbsent(
      states: seq<System>, home: Home, n: nat, h: seq<Change>, emitted: seq<nat>, k: Key)
    requires Run(states, home) && n < |states|
    requires ValidHistory(h) && Indexed(h, emitted)
    requires states[n].log == Topic(h, emitted, home)
    requires forall e :: 0 <= e < |emitted| ==> h[emitted[e]].key != k
    ensures k !in CustomersCurrent(states[n].store.silver)
  {
    hide Run, Topic, CustomersCurrent, Acceptable, About, ValidHistory;
    ViewInEveryState(states, home, n, k);
    RunInv(states, home, n);
    InvFromLog(states[n], home);
    if c :| NewestOf(states[n].store.bronze, c, k) {
      assert DataAt(states[n].log, c, k);
      var e := DataIsEmitted(h, emitted, home, c, k);
    }
  }

  /** The connector never skips, so everything up to its furthest emission was emitted. */
  lemma {:induction false} NothingSkipped(h: seq<Change>, emitted: seq<nat>, j: nat, i: nat) returns (e: nat)
    requires AtLeastOnce(h, emitted) && j < |emitted| && i <= emitted[j]
    ensures e <= j && emitted[e] == i
  {
    if i == emitted[j] {
      e := j;
    } else {
      assert j > 0 && emitted[j - 1 + 1] <= emitted[j - 1] + 1;
      e := NothingSkipped(h, emitted, j - 1, i);
    }
  }

  /** The first `far` changes are those that were emitted at least once. */
  ghost predicate Reach(h: seq<Change>, emitted: seq<nat>, far: nat) {
    && far <= |h|
    && (forall j :: 0 <= j < |emitted| ==> emitted[j] < far)
    && (far > 0 ==> far - 1 in emitted)
  }

  lemma {:induction false} LastEmission(emitted: seq<nat>, i: nat) returns (e: nat)
    requires i in emitted
    ensures e < |emitted| && emitted[e] == i && forall e' :: e < e' < |emitted| ==> emitted[e'] != i
  {
    var n := |emitted| - 1;
    if emitted[n] == i {
      e := n;
    } else {
      assert i in emitted[..n];
      e := LastEmission(emitted[..n], i);
      assert forall e' :: 0 <= e' < n ==> emitted[..n][e'] == emitted[e'];
    }
  }

  /** What a change leaves of its customer. */
  function Effect(ch: Change): Option<Attrs> {
    if ch.op == 'd' then None else Some(ch.attrs)
  }

  lemma {:induction false} DecisiveExists(h: seq<Change>, emitted: seq<nat>, k: Key, j: nat) returns (e: nat)
    requires Indexed(h, emitted) && j < |emitted| && h[emitted[j]].key == k
    ensures Decisive(h, emitted, k, e)
  {
    e := j;
    for n := 0 to |emitted|
      invariant e < |emitted| && h[emitted[e]].key == k && (e < n || e == j)
      invariant forall e' :: 0 <= e' < n && h[emitted[e']].key == k ==>
        h[emitted[e']].lsn < h[emitted[e]].lsn || (h[emitted[e']].lsn == h[emitted[e]].lsn && e' <= e)
    {
      if h[emitted[n]].key == k && (h[emitted[n]].lsn > h[emitted[e]].lsn || (h[emitted[n]].lsn == h[emitted[e]].lsn && n > e)) {
        e := n;
      }
    }
  }

  /** The decisive emission about `k` has the effect of its last change among the first `far`. */
  ghost predicate DecidedByLast(h: seq<Change>, emitted: seq<nat>, far: nat, k: Key)
    requires Indexed(h, emitted) && far <= |h|
  {
    forall e: nat, p :: Decisive(h, emitted, k, e) && LastChange(h[..far], k, p) ==> Effect(h[emitted[e]]) == Effect(h[p])
  }

  /** The view and the source table up to the furthest change, for one customer. */
  lemma {:induction false} ViewOfKey(
      states: seq<System>, home: Home, n: nat, h: seq<Change>, emitted: seq<nat>, far: nat, k: Key)
    requires Run(states, home) && n < |states|
    requires ValidHistory(h) && AtLeastOnce(h, emitted) && Reach(h, emitted, far)
    requires states[n].log == Topic(h, emitted, home)
    requires AllRead(states[n]) && states[n].removed == {}
    ensures Lookup(CustomersCurrent(states[n].store.silver), k) == Lookup(SourceTable(h[..far]), k) <==>
      DecidedByLast(h, emitted, far, k)
  {
    hide Run, Topic, AllRead, ValidHistory, CustomersCurrent, SourceTable;
    SourceByLastChange(h[..far], k);
    ViewByEmission(states, home, n, h, emitted, k);
    if p :| LastChange(h[..far], k, p) {
      var j :| 0 <= j < |emitted| && emitted[j] == far - 1;
      var first := NothingSkipped(h, emitted, j, p);
      var e := DecisiveExists(h, emitted, k, first);
    } else {
      forall e | 0 <= e < |emitted| ensures h[emitted[e]].key != k {
        assert h[..far][emitted[e]] == h[emitted[e]];
      }
      LookupTells(CustomersCurrent(states[n].store.silver), k);
    }
  }

  /**
   * The exact condition, however far the connector got and wherever it rewound to: the view of a
   * fully read topic is the source table up to the furthest change ever emitted iff of each customer
   * the last emission with the greatest LSN has the effect of the customer's last change.
   */
  lemma {:induction false} ViewLagsExactly(
      states: seq<System>, home: Home, n: nat, h: seq<Change>, emitted: seq<nat>, far: nat)
    requires Run(states, home) && n < |states|
    requires ValidHistory(h) && AtLeastOnce(h, emitted) && Reach(h, emitted, far)
    requires states[n].log == Topic(h, emitted, home)
    requires AllRead(states[n]) && states[n].removed == {}
    ensures CustomersCurrent(states[n].store.silver) == SourceTable(h[..far]) <==>
      forall k :: DecidedByLast(h, emitted, far, k)
  {
    var view, source := CustomersCurrent(states[n].store.silver), SourceTable(h[..far]);
    hide Run, Topic, AllRead, ValidHistory, CustomersCurrent, SourceTable, DecidedByLast;
    forall k ensures Lookup(view, k) == Lookup(source, k) <==> DecidedByLast(h, emitted, far, k) {
      ViewOfKey(states, home, n, h, emitted, far, k);
    }
    if forall k :: DecidedByLast(h, emitted, far, k) {
      SameLookups(view, source);
    }
  }

  /**
   * With LSNs rising along a key that always holds: even while the connector re-emits old changes
   * after a rewind, no customer falls back behind the furthest change.
   */
  lemma {:induction false} ConvergesWhileRewound(
      states: seq<System>, home: Home, n: nat, h: seq<Change>, emitted: seq<nat>, far: nat)
    requires Run(states, home) && n < |states|
    requires ValidHistory(h) && AtLeastOnce(h, emitted) && Reach(h, emitted, far)
    requires forall i, j :: 0 <= i < j < far && h[i].key == h[j].key ==> h[i].lsn < h[j].lsn
    requires states[n].log == Topic(h, emitted, home)
    requires AllRead(states[n]) && states[n].removed == {}
    ensures CustomersCurrent(states[n].store.silver) == SourceTable(h[..far])
  {
    hide Run, Topic, AllRead, ValidHistory, CustomersCurrent, SourceTable;
    ViewLagsExactly(states, home, n, h, emitted, far);
    forall k ensures DecidedByLast(h, emitted, far, k) {
      forall e: nat, p | Decisive(h, emitted, k, e) && LastChange(h[..far], k, p)
        ensures Effect(h[emitted[e]]) == Effect(h[p])
      {
        var last := LastChangeDecides(h, emitted, far, k, p);
        assert last == e;
      }
    }
  }

  function CreateAndDelete(k: Key, lsn: int, attrs: Attrs): seq<Change> {
    [Change(k, 'c', lsn, 0, attrs), Change(k, 'd', lsn, 0, attrs)]
  }

  lemma {:induction false} CreateAgain(k: Key, lsn: int, attrs: Attrs, emitted: seq<nat>)
    requires emitted == [0, 1, 0]
    ensures var h := CreateAndDelete(k, lsn, attrs);
      AtLeastOnce(h, emitted) && Reach(h, emitted, 2) && !DecidedByLast(h, emitted, 2, k)
  {
    var h := CreateAndDelete(k, lsn, attrs);
    assert h[..2] == h;
    assert emitted[1] == 1;
    assert LastChange(h[..2], k, 1);
    assert Decisive(h, emitted, k, 2);
  }

  lemma {:induction false} DeleteAgain(k: Key, lsn: int, attrs: Attrs, emitted: seq<nat>)
    requires emitted == [0, 1, 0, 1]
    ensures var h := CreateAndDelete(k, lsn, attrs);
      AtLeastOnce(h, emitted) && Reach(h, emitted, 2) && DecidedByLast(h, emitted, 2, k)
  {
    var h := CreateAndDelete(k, lsn, attrs);
    assert h[..2] == h;
    assert emitted[1] == 1;
    forall e: nat | Decisive(h, emitted, k, e) ensures e == 3 {
      assert h[emitted[3]].key == k;
    }
  }

  /**
   * Where it fails: a create and a delete with one LSN. When the connector rewinds and emits the
   * create again, the create wins by its offset, until the delete is emitted again.
   */
  lemma {:induction false} EqualLsnsFallBack(k: Key, lsn: int, attrs: Attrs)
    requires k != ""
    ensures var h := CreateAndDelete(k, lsn, attrs);
      && ValidHistory(h)
      && AtLeastOnce(h, [0, 1, 0]) && Reach(h, [0, 1, 0], 2) && !DecidedByLast(h, [0, 1, 0], 2, k)
      && AtLeastOnce(h, [0, 1, 0, 1]) && Reach(h, [0, 1, 0, 1], 2) && DecidedByLast(h, [0, 1, 0, 1], 2, k)
  {
    hide AtLeastOnce, Reach, DecidedByLast;
    CreateAgain(k, lsn, attrs, [0, 1, 0]);
    DeleteAgain(k, lsn, attrs, [0, 1, 0, 1]);
  }

  lemma {:induction false} SameLookups<V>(m: map<Key, V>, m': map<Key, V>)
    requires forall k :: Lookup(m, k) == Lookup(m', k)
    ensures m == m'
  {
    forall k ensures k in m <==> k in m' {
      assert Lookup(m, k) == Lookup(m', k);
    }
    forall k | k in m ensures m[k] == m'[k] {
      assert Lookup(m, k) == Lookup(m', k);
    }
  }

  lemma {:induction false} LastChangeDecides(h: seq<Change>, emitted: seq<nat>, far: nat, k: Key, p: int) returns (e: nat)
    requires AtLeastOnce(h, emitted) && Reach(h, emitted, far)
    requires forall i, j :: 0 <= i < j < far && h[i].key == h[j].key ==> h[i].lsn < h[j].lsn
    requires LastChange(h[..far], k, p)
    ensures Decisive(h, emitted, k, e) && emitted[e] == p
  {
    var j :| 0 <= j < |emitted| && emitted[j] == far - 1;
    var first := NothingSkipped(h, emitted, j, p);
    e := LastEmission(emitted, p);
    forall e' | 0 <= e' < |emitted| && h[emitted[e']].key == k
      ensures emitted[e'] <= p
    {
      assert h[..far][emitted[e']] == h[emitted[e']];
    }
  }

  /** On a compacted topic the same holds for every key that the source has not deleted. */
  lemma {:induction false} LiveKeysConvergeUnderCompaction(
      states: seq<System>, home: Home, n: nat, h: seq<Change>, emitted: seq<nat>, k: Key)
    requires Run(states, home) && n < |states|
    requires ValidHistory(h) && AtLeastOnce(h, emitted) && CaughtUp(h, emitted)
    requires states[n].log == Topic(h, emitted, home)
    requires NothingUnread(states[n], k)
    requires k in SourceTable(h) || forall i :: 0 <= i < |h| ==> h[i].key != k
    ensures Lookup(CustomersCurrent(states[n].store.silver), k) == Lookup(SourceTable(h), k)
  {
    SourceByLastChange(h, k);
    if p :| LastChange(h, k, p) {
      var c := NewestIsLastChange(h, emitted, home, k, p);
      CompactionTransparent(states, home, n, c, k);
    } else {
      UnchangedKeyIsAbsent(states, home, n, h, emitted, k);
    }
  }

  lemma {:induction false} UnchangedKeyIsAbsent(
      states: seq<System>, home: Home, n: nat, h: seq<Change>, emitted: seq<nat>, k: Key)
    requires Run(states, home) && n < |states|
    requires ValidHistory(h) && AtLeastOnce(h, emitted)
    requires states[n].log == Topic(h, emitted, home)
    requires forall i :: 0 <= i < |h| ==> h[i].key != k
    ensures k !in CustomersCurrent(states[n].store.silver)
  {
    var s := states[n];
    TopicShape(h, emitted, home);
    ViewInEveryState(states, home, n, k);
    RunInv(states, home, n);
    if c :| NewestOf(s.store.bronze, c, k) {
      var i :| 0 <= i < |h| && c.tp == home(h[i].key) && EntryAt(s.log, c) in RecordsOf(h[i]);
      RecordIsData(h, s.log, c, i);
      assert DataAt(s.log, c, k);
    }
  }

  // ----- Where compaction breaks convergence -----

  function CreateThenDelete(k: Key, attrs: Attrs): seq<Change> {
    [Change(k, 'c', 1, 0, attrs), Change(k, 'd', 2, 0, attrs)]
  }

  /** Create, delete and tombstone of one customer, in the customer's partition. */
  function ThreeRecords(home: Home, k: Key, attrs: Attrs): Log {
    map[home(k) := RecordsOf(CreateThenDelete(k, attrs)[0]) + RecordsOf(CreateThenDelete(k, attrs)[1])]
  }

  /** The delete at offset 1 is compacted away after offset 0 was read and before offset 1 was. */
  function StaleRun(home: Home, k: Key, attrs: Attrs): seq<System> {
    var log, tp := ThreeRecords(home, k, attrs), home(k);
    var create := Entries(log, tp)[0].value.value;
    var row := BronzeRow(k, 'c', Some(1), Some(0), None, None, create.after);
    var dead := BronzeRow(k, 't', None, None, None, None, None);
    var silver := map[k := SilverRow(attrs, false, 'c', 1, Some(0), Coord(tp, 0))];
    var one := Store(map[Coord(tp, 0) := row], silver);
    var two := Store(map[Coord(tp, 0) := row, Coord(tp, 2) := dead], silver);
    [ Fresh(log),
      System(log, {}, one, map[tp := 1], map[tp := 1]),
      System(log, {Coord(tp, 1)}, one, map[tp := 1], map[tp := 1]),
      System(log, {Coord(tp, 1)}, two, map[tp := 3], map[tp := 3]) ]
  }

  lemma {:induction false} ApplyOne(s: Store, m: Message)
    ensures ApplyBatch(s, [m]) ==
      match ApplyMessage(s, m)
      case Failure(e) => Failure(e)
      case Success(p) => Success(p.0)
  {
    assert [m][..0] == [];
  }

  lemma {:induction false} StaleRunReadsCreate(home: Home, k: Key, attrs: Attrs)
    requires k != ""
    ensures Next(StaleRun(home, k, attrs)[0], StaleRun(home, k, attrs)[1], home)
  {
    var run, tp := StaleRun(home, k, attrs), home(k);
    var m := MessageAt(run[0].log, Coord(tp, 0));
    ApplyOne(EMPTY, m);
    assert NextOffset([m], tp, 1) by { assert [m][0].coord.tp == tp; }
    assert Acknowledges(map[tp := 1], [m]);
    assert Polled(run[0], [m], map[tp := 1]) by { assert [m][0] == m; }
    assert run[0].committed + map[tp := 1] == map[tp := 1];
    assert Process(run[0], run[1], [m], map[tp := 1], true);
  }

  lemma {:induction false} TombstonePolled(home: Home, k: Key, attrs: Attrs)
    requires k != ""
    ensures var s, tp := StaleRun(home, k, attrs)[2], home(k);
      InLog(s.log, Coord(tp, 2)) && Polled(s, [MessageAt(s.log, Coord(tp, 2))], map[tp := 3])
  {
    var s, tp := StaleRun(home, k, attrs)[2], home(k);
    var m := MessageAt(s.log, Coord(tp, 2));
    assert [m][0] == m;
  }

  lemma {:induction false} TombstoneStored(home: Home, k: Key, attrs: Attrs)
    requires k != ""
    ensures var run, tp := StaleRun(home, k, attrs), home(k);
      InLog(run[2].log, Coord(tp, 2)) && ApplyBatch(run[2].store, [MessageAt(run[2].log, Coord(tp, 2))]) == Success(run[3].store)
  {
    var run, tp := StaleRun(home, k, attrs), home(k);
    var m := MessageAt(run[2].log, Coord(tp, 2));
    ApplyOne(run[2].store, m);
    assert run[2].store.bronze[Coord(tp, 2) := BronzeOf(m)] == run[3].store.bronze;
  }

  lemma {:induction false} StaleRunReadsTombstone(home: Home, k: Key, attrs: Attrs)
    requires k != ""
    ensures Next(StaleRun(home, k, attrs)[2], StaleRun(home, k, attrs)[3], home)
  {
    hide Polled, ApplyBatch, Produce, Restart, MoveBack, Compact;
    var run, tp := StaleRun(home, k, attrs), home(k);
    TombstonePolled(home, k, attrs);
    TombstoneStored(home, k, attrs);
    var m := MessageAt(run[2].log, Coord(tp, 2));
    assert NextOffset([m], tp, 3) by { assert [m][0].coord.tp == tp; }
    assert Acknowledges(map[tp := 3], [m]);
    assert run[2].committed + map[tp := 3] == map[tp := 3];
    assert Process(run[2], run[3], [m], map[tp := 3], true);
  }

  lemma {:induction false} ThreeRecordsIsTopic(home: Home, k: Key, attrs: Attrs)
    requires k != ""
    ensures var h := CreateThenDelete(k, attrs);
      ValidHistory(h) && AtLeastOnce(h, [0, 1]) && CaughtUp(h, [0, 1])
      && ThreeRecords(home, k, attrs) == Topic(h, [0, 1], home)
      && WellKeyed(ThreeRecords(home, k, attrs), home)
      && k !in SourceTable(h)
  {
    var h := CreateThenDelete(k, attrs);
    var one: seq<nat> := [0];
    var both: seq<nat> := [0, 1];
    assert both[..1] == one && one[..0] == [];
    assert Topic(h, one, home) == Append(map[], home(k), RecordsOf(h[0]));
    assert Topic(h, both, home) == Append(Topic(h, one, home), home(k), RecordsOf(h[1]));
    assert [] + RecordsOf(h[0]) == RecordsOf(h[0]);
    assert h[..1] == [h[0]];
    TopicShape(h, [0, 1], home);
    TopicIsWellKeyed(h, Topic(h, [0, 1], home), home);
  }

  /**
   * When compaction removes a delete before it is read the view can be stale for good: a drained,
   * caught-up run in which a deleted customer is still live.
   */
  lemma {:induction false} DeletedCustomerStaysLive(home: Home, k: Key, attrs: Attrs)
    requires k != ""
    ensures var run, h := StaleRun(home, k, attrs), CreateThenDelete(k, attrs);
      && Run(run, home) && Drained(run[3])
      && run[3].log == Topic(h, [0, 1], home) && CaughtUp(h, [0, 1])
      && k in CustomersCurrent(run[3].store.silver) && k !in SourceTable(h)
  {
    var run, tp := StaleRun(home, k, attrs), home(k);
    ThreeRecordsIsTopic(home, k, attrs);
    StaleRunReadsCreate(home, k, attrs);
    StaleRunReadsTombstone(home, k, attrs);
    assert Superseded(run[1].log, Coord(tp, 1)) by {
      assert InLog(run[1].log, Coord(tp, 2)) && EntryAt(run[1].log, Coord(tp, 2)).key == Some(k);
    }
    assert Compact(run[1], run[2]);
  }
}
