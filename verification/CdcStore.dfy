/**
 * Bronze and Silver as values: what one decoded Debezium record does to the two
 * tables of postgres/sql/003_cdc_customer_layers.sql, and what the tables then mean.
 */
module CdcStore {
  import opened Prelude

  datatype TopicPartition = TopicPartition(topic: string, partition: nat)

  /** The physical identity of a Kafka record; the primary key of Bronze. */
  datatype Coord = Coord(tp: TopicPartition, offset: nat)

  datatype Attrs = Attrs(
    firstName: Option<string>, lastName: Option<string>, email: Option<string>,
    createdAt: Option<int>, updatedAt: Option<int>)

  /** Attributes of a Silver row created by a delete: every column is NULL. */
  const NO_ATTRS := Attrs(None, None, None, None, None)

  /** A decoded row image; `customerId` is `None` when the image lacks the column. */
  datatype Image = Image(customerId: Option<Key>, attrs: Attrs)

  /** A decoded Debezium envelope. `lsn` and `tsMs` come from its `source` block. */
  datatype Event = Event(
    op: Option<char>, lsn: Option<int>, tsMs: Option<int>, txId: Option<string>,
    before: Option<Image>, after: Option<Image>)

  /** A Kafka record; a `None` value is a tombstone. */
  datatype Message = Message(coord: Coord, key: Option<Key>, value: Option<Event>)

  datatype BronzeRow = BronzeRow(
    customerId: Key, op: char, lsn: Option<int>, tsMs: Option<int>, txId: Option<string>,
    before: Option<Image>, after: Option<Image>)

  datatype SilverRow = SilverRow(
    attrs: Attrs, isDeleted: bool, op: char, lsn: int, tsMs: Option<int>, coord: Coord)

  datatype Store = Store(bronze: map<Coord, BronzeRow>, silver: map<Key, SilverRow>)

  const EMPTY := Store(map[], map[])

  datatype CdcError =
    | MissingBusinessKey
    | UnsupportedOperation
    | MissingLsn
    | MissingAfter
    | MissingAfterKey

  // ----- One record -----

  predicate IsUpsertOp(op: char) { op in {'r', 'c', 'u'} }

  predicate IsDataOp(op: char) { IsUpsertOp(op) || op == 'd' }

  predicate HasKey(m: Message) { m.key.Some? && m.key.value != "" }

  /** The operation Bronze records: an absent envelope is a tombstone `t`. */
  function OperationOf(value: Option<Event>): Option<char> {
    match value
    case None => Some('t')
    case Some(e) => e.op
  }

  predicate Supported(op: Option<char>) {
    op.Some? && (IsDataOp(op.value) || op.value == 't')
  }

  function BronzeOf(m: Message): BronzeRow
    requires HasKey(m) && Supported(OperationOf(m.value))
  {
    match m.value
    case None => BronzeRow(m.key.value, 't', None, None, None, None, None)
    case Some(e) => BronzeRow(m.key.value, e.op.value, e.lsn, e.tsMs, e.txId, e.before, e.after)
  }

  /** The lexicographic guard on (source_lsn, kafka_offset). */
  predicate Newer(lsn: int, offset: nat, lsn': int, offset': nat) {
    lsn > lsn' || (lsn == lsn' && offset > offset')
  }

  /** A Bronze row that is fit to be folded into Silver. */
  predicate Foldable(b: BronzeRow) {
    IsDataOp(b.op) ==>
      b.lsn.Some? && (IsUpsertOp(b.op) ==> b.after.Some? && b.after.value.customerId.Some?)
  }

  /** The customer a data row speaks about: the row image's key, or the record key for a delete. */
  function Subject(b: BronzeRow): Key
    requires IsDataOp(b.op) && Foldable(b)
  {
    if b.op == 'd' then b.customerId else b.after.value.customerId.value
  }

  /** `b` is a data row about `k`. */
  predicate About(b: BronzeRow, k: Key) {
    IsDataOp(b.op) && Foldable(b) && Subject(b) == k
  }

  /** INSERT ... ON CONFLICT (customer_id) DO UPDATE ... WHERE newer, for one key. */
  function UpsertRow(prior: Option<SilverRow>, c: Coord, b: BronzeRow): SilverRow
    requires IsDataOp(b.op) && Foldable(b)
  {
    if prior.Some? && !Newer(b.lsn.value, c.offset, prior.value.lsn, prior.value.coord.offset) then
      prior.value
    else
      var attrs :=
        if b.op != 'd' then b.after.value.attrs
        else if prior.Some? then prior.value.attrs
        else NO_ATTRS;
      SilverRow(attrs, b.op == 'd', b.op, b.lsn.value, b.tsMs, c)
  }

  /** What apply_silver does with a record whose Bronze row was just inserted. */
  function FoldSilver(silver: map<Key, SilverRow>, m: Message): Result<map<Key, SilverRow>, CdcError>
    requires HasKey(m) && Supported(OperationOf(m.value))
  {
    var b := BronzeOf(m);
    if m.value.None? then Success(silver)
    else if b.lsn.None? then Failure(MissingLsn)
    else if IsUpsertOp(b.op) && b.after.None? then Failure(MissingAfter)
    else if IsUpsertOp(b.op) && b.after.value.customerId.None? then Failure(MissingAfterKey)
    else if IsDataOp(b.op) then
      var k := Subject(b);
      Success(silver[k := UpsertRow(Lookup(silver, k), m.coord, b)])
    else Success(silver)
  }

  /** One iteration of the loop in process_batch; the flag says whether Bronze took the record. */
  function ApplyMessage(s: Store, m: Message): Result<(Store, bool), CdcError> {
    if !HasKey(m) then Failure(MissingBusinessKey)
    else if !Supported(OperationOf(m.value)) then Failure(UnsupportedOperation)
    else if m.coord in s.bronze then Success((s, false))
    else
      match FoldSilver(s.silver, m)
      case Failure(e) => Failure(e)
      case Success(silver) => Success((Store(s.bronze[m.coord := BronzeOf(m)], silver), true))
  }

  /** The database effect of one batch: all of it, or an error and none of it. */
  function ApplyBatch(s: Store, ms: seq<Message>): Result<Store, CdcError> {
    if ms == [] then Success(s)
    else
      match ApplyBatch(s, ms[..|ms| - 1])
      case Failure(e) => Failure(e)
      case Success(t) =>
        match ApplyMessage(t, ms[|ms| - 1])
        case Failure(e) => Failure(e)
        case Success(p) => Success(p.0)
  }

  /** The customers_current view. */
  function CustomersCurrent(silver: map<Key, SilverRow>): map<Key, Attrs> {
    map k | k in silver && !silver[k].isDeleted :: silver[k].attrs
  }

  // ----- Silver is determined by Bronze -----

  /** `row` carries the data of the Bronze row at its own coordinate. */
  ghost predicate Carries(row: SilverRow, bronze: map<Coord, BronzeRow>, k: Key) {
    && row.coord in bronze
    && var b := bronze[row.coord];
    && About(b, k)
    && row.lsn == b.lsn.value
    && row.op == b.op
    && row.tsMs == b.tsMs
    && (row.isDeleted <==> b.op == 'd')
    && (b.op != 'd' ==> row.attrs == b.after.value.attrs)
  }

  /** No data row about `k` has a greater (LSN, offset) than `row`. */
  ghost predicate Greatest(row: SilverRow, bronze: map<Coord, BronzeRow>, k: Key) {
    forall c :: c in bronze && About(bronze[c], k) ==>
      bronze[c].lsn.value < row.lsn || (bronze[c].lsn.value == row.lsn && c.offset <= row.coord.offset)
  }

  /** The invariant tying the two tables, whatever order the records came in. */
  ghost predicate SilverProjectsBronze(s: Store) {
    && (forall c :: c in s.bronze ==> Foldable(s.bronze[c]))
    && (forall k :: k in s.silver ==> Carries(s.silver[k], s.bronze, k) && Greatest(s.silver[k], s.bronze, k))
    && (forall c :: c in s.bronze && IsDataOp(s.bronze[c].op) ==> Subject(s.bronze[c]) in s.silver)
  }

  /** The guarded upsert of one new Bronze row keeps its customer's Silver row at the greatest event. */
  lemma {:induction false} UpsertedRowProjects(
      prior: Option<SilverRow>, bronze: map<Coord, BronzeRow>, c: Coord, b: BronzeRow, k: Key)
    requires c !in bronze && About(b, k)
    requires prior.Some? ==> Carries(prior.value, bronze, k) && Greatest(prior.value, bronze, k)
    requires prior.None? ==> forall c' :: c' in bronze ==> !About(bronze[c'], k)
    ensures var row := UpsertRow(prior, c, b);
      Carries(row, bronze[c := b], k) && Greatest(row, bronze[c := b], k)
  {
  }

  lemma {:induction false} OtherRowProjects(
      row: SilverRow, bronze: map<Coord, BronzeRow>, c: Coord, b: BronzeRow, k: Key)
    requires c !in bronze && !About(b, k)
    requires Carries(row, bronze, k) && Greatest(row, bronze, k)
    ensures Carries(row, bronze[c := b], k) && Greatest(row, bronze[c := b], k)
  {
    hide About;
  }

  /** A record that Silver takes is fit for Bronze, and changes the row of its subject only. */
  lemma {:induction false} TakenRecord(s: Store, m: Message)
    requires ApplyMessage(s, m).Success? && m.coord !in s.bronze
    ensures HasKey(m) && Supported(OperationOf(m.value)) && Foldable(BronzeOf(m))
    ensures var b := BronzeOf(m);
      ApplyMessage(s, m).value.0 == Store(
        s.bronze[m.coord := b],
        if IsDataOp(b.op) then s.silver[Subject(b) := UpsertRow(Lookup(s.silver, Subject(b)), m.coord, b)] else s.silver)
  {
    hide UpsertRow;
  }

  lemma {:induction false} ApplyMessageKeepsProjection(s: Store, m: Message)
    requires SilverProjectsBronze(s)
    requires ApplyMessage(s, m).Success?
    ensures SilverProjectsBronze(ApplyMessage(s, m).value.0)
  {
    if m.coord !in s.bronze {
      hide ApplyMessage, UpsertRow, Carries, Greatest, BronzeOf, HasKey, Supported;
      TakenRecord(s, m);
      var t, b := ApplyMessage(s, m).value.0, BronzeOf(m);
      forall k | k in t.silver ensures Carries(t.silver[k], t.bronze, k) && Greatest(t.silver[k], t.bronze, k) {
        if About(b, k) {
          UpsertedRowProjects(Lookup(s.silver, k), s.bronze, m.coord, b, k);
        } else {
          OtherRowProjects(t.silver[k], s.bronze, m.coord, b, k);
        }
      }
    }
  }

  lemma {:induction false} ApplyBatchKeepsProjection(s: Store, ms: seq<Message>)
    requires SilverProjectsBronze(s)
    requires ApplyBatch(s, ms).Success?
    ensures SilverProjectsBronze(ApplyBatch(s, ms).value)
  {
    if ms == [] {
    } else {
      ApplyBatchKeepsProjection(s, ms[..|ms| - 1]);
      ApplyMessageKeepsProjection(ApplyBatch(s, ms[..|ms| - 1]).value, ms[|ms| - 1]);
    }
  }

  /** `c` holds a data row about `k` that no other data row about `k` beats. */
  ghost predicate NewestOf(bronze: map<Coord, BronzeRow>, c: Coord, k: Key) {
    && c in bronze
    && About(bronze[c], k)
    && forall c' :: c' in bronze && About(bronze[c'], k) ==>
         || bronze[c'].lsn.value < bronze[c].lsn.value
         || (bronze[c'].lsn.value == bronze[c].lsn.value && c'.offset <= c.offset)
  }

  /** Every data row about one customer lies in one partition. */
  ghost predicate OnePartitionPerKey(bronze: map<Coord, BronzeRow>) {
    forall c, c', k :: c in bronze && c' in bronze && About(bronze[c], k) && About(bronze[c'], k) ==>
      c.tp == c'.tp
  }

  /** The live view, read off Bronze alone: the newest event's payload, absent iff that event is a delete. */
  lemma {:induction false} ViewIsNewestBronzeEvent(s: Store, k: Key)
    requires SilverProjectsBronze(s) && OnePartitionPerKey(s.bronze)
    ensures forall c :: NewestOf(s.bronze, c, k) ==>
      && Lookup(CustomersCurrent(s.silver), k)
         == (if s.bronze[c].op == 'd' then None else Some(s.bronze[c].after.value.attrs))
    ensures (exists c :: c in s.bronze && About(s.bronze[c], k)) <==> (exists c :: NewestOf(s.bronze, c, k))
    ensures !(exists c :: NewestOf(s.bronze, c, k)) ==> k !in CustomersCurrent(s.silver)
  {
    if k in s.silver {
      var row := s.silver[k];
      assert NewestOf(s.bronze, row.coord, k);
      forall c | NewestOf(s.bronze, c, k) ensures c == row.coord {
        assert c.tp == row.coord.tp;
      }
    }
  }

  /** Two stores with the same Bronze agree on all of Silver but the attributes of deleted customers. */
  lemma {:induction false} SameBronzeSameView(s: Store, t: Store)
    requires SilverProjectsBronze(s) && SilverProjectsBronze(t)
    requires s.bronze == t.bronze && OnePartitionPerKey(s.bronze)
    ensures CustomersCurrent(s.silver) == CustomersCurrent(t.silver)
    ensures s.silver.Keys == t.silver.Keys
    ensures forall k :: k in s.silver ==> s.silver[k].(attrs := NO_ATTRS) == t.silver[k].(attrs := NO_ATTRS)
  {
    forall k | k in s.silver || k in t.silver
      ensures k in s.silver && k in t.silver
      ensures s.silver[k].coord == t.silver[k].coord
    {
      if k in s.silver {
        SameCoord(s, t, k);
      } else {
        SameCoord(t, s, k);
      }
    }
  }

  lemma {:induction false} SameCoord(s: Store, t: Store, k: Key)
    requires SilverProjectsBronze(s) && SilverProjectsBronze(t)
    requires s.bronze == t.bronze && OnePartitionPerKey(s.bronze)
    requires k in s.silver
    ensures k in t.silver && s.silver[k].coord == t.silver[k].coord
  {
    var c := s.silver[k].coord;
    assert About(s.bronze[c], k);
    var c' := t.silver[k].coord;
    assert c.tp == c'.tp;
  }

  // ----- Arrival order and duplication -----

  /** The records apply_silver and insert_bronze accept; everything else aborts the batch. */
  predicate Acceptable(m: Message) {
    HasKey(m) && Supported(OperationOf(m.value)) && FoldSilver(map[], m).Success?
  }

  /** A coordinate names one record: re-reads of it are identical. */
  ghost predicate Consistent(ms: seq<Message>) {
    forall i, j :: 0 <= i < |ms| && 0 <= j < |ms| && ms[i].coord == ms[j].coord ==> ms[i] == ms[j]
  }

  /** Bronze already holds `m` or nothing at its coordinate. */
  ghost predicate Fits(bronze: map<Coord, BronzeRow>, m: Message) {
    m.coord in bronze ==> Acceptable(m) && bronze[m.coord] == BronzeOf(m)
  }

  lemma {:induction false} MessageOutcome(s: Store, m: Message)
    requires Fits(s.bronze, m)
    ensures ApplyMessage(s, m).Success? <==> Acceptable(m)
    ensures Acceptable(m) ==> ApplyMessage(s, m).value.0.bronze == s.bronze[m.coord := BronzeOf(m)]
  {
  }

  /** `t` holds the rows of `s` and of the records `ms`, and nothing else. */
  ghost predicate Recorded(s: map<Coord, BronzeRow>, ms: seq<Message>, t: map<Coord, BronzeRow>) {
    && (forall c :: c in t ==> c in s || exists m :: m in ms && m.coord == c)
    && (forall c :: c in s ==> c in t && t[c] == s[c])
    && (forall m :: m in ms ==> Acceptable(m) && m.coord in t && t[m.coord] == BronzeOf(m))
  }

  lemma {:induction false} RecordedStep(
      s: map<Coord, BronzeRow>, ms: seq<Message>, m: Message, t: map<Coord, BronzeRow>)
    requires Acceptable(m) && Fits(t, m) && Recorded(s, ms, t)
    ensures Recorded(s, ms + [m], t[m.coord := BronzeOf(m)])
  {
    forall c | c in t[m.coord := BronzeOf(m)] && c !in s
      ensures exists x :: x in ms + [m] && x.coord == c
    {
      if c == m.coord {
        assert m in ms + [m];
      } else {
        var x :| x in ms && x.coord == c;
        assert x in ms + [m];
      }
    }
  }

  /** A batch is stored whole iff every record is acceptable; Bronze then is the set of its records. */
  lemma {:induction false} BatchOutcome(s: Store, ms: seq<Message>)
    requires Consistent(ms)
    requires forall m :: m in ms ==> Fits(s.bronze, m)
    ensures ApplyBatch(s, ms).Success? <==> forall m :: m in ms ==> Acceptable(m)
    ensures ApplyBatch(s, ms).Success? ==> Recorded(s.bronze, ms, ApplyBatch(s, ms).value.bronze)
  {
    if ms == [] {
    } else {
      var front, last := ms[..|ms| - 1], ms[|ms| - 1];
      assert ms == front + [last];
      assert last in ms && forall m :: m in front ==> m in ms;
      BatchOutcome(s, front);
      if ApplyBatch(s, front).Success? {
        var t := ApplyBatch(s, front).value;
        FitsAfter(s.bronze, front, last, t.bronze);
        MessageOutcome(t, last);
        if Acceptable(last) { RecordedStep(s.bronze, front, last, t.bronze); }
      }
    }
  }

  lemma {:induction false} FitsAfter(s: map<Coord, BronzeRow>, ms: seq<Message>, m: Message, t: map<Coord, BronzeRow>)
    requires Consistent(ms + [m]) && Fits(s, m)
    requires Recorded(s, ms, t)
    ensures Fits(t, m)
  {
    if m.coord in t && m.coord !in s {
      var x :| x in ms && x.coord == m.coord;
      var i :| 0 <= i < |ms| && ms[i] == x;
      assert (ms + [m])[i] == x && (ms + [m])[|ms|] == m;
    }
  }

  lemma {:induction false} RecordedIsUnique(
      ms: seq<Message>, ms': seq<Message>, t: map<Coord, BronzeRow>, t': map<Coord, BronzeRow>)
    requires forall m :: m in ms <==> m in ms'
    requires Recorded(map[], ms, t) && Recorded(map[], ms', t')
    ensures t == t'
  {
    forall c | c in t || c in t' ensures c in t && c in t' && t[c] == t'[c] {
      var m :| m in ms && m.coord == c;
    }
  }

  /** Any order and any repetition of the same records yields the same Bronze and the same live view. */
  lemma {:induction false} ArrivalOrderIrrelevant(ms: seq<Message>, ms': seq<Message>)
    requires Consistent(ms)
    requires forall m :: m in ms <==> m in ms'
    requires ApplyBatch(EMPTY, ms).Success?
    ensures ApplyBatch(EMPTY, ms').Success?
    ensures var s, s' := ApplyBatch(EMPTY, ms).value, ApplyBatch(EMPTY, ms').value;
      && s.bronze == s'.bronze
      && (OnePartitionPerKey(s.bronze) ==> CustomersCurrent(s.silver) == CustomersCurrent(s'.silver))
  {
    assert Consistent(ms') by {
      forall i, j | 0 <= i < |ms'| && 0 <= j < |ms'| && ms'[i].coord == ms'[j].coord ensures ms'[i] == ms'[j] {
        assert ms'[i] in ms && ms'[j] in ms;
      }
    }
    BatchOutcome(EMPTY, ms);
    BatchOutcome(EMPTY, ms');
    var s, s' := ApplyBatch(EMPTY, ms).value, ApplyBatch(EMPTY, ms').value;
    ApplyBatchKeepsProjection(EMPTY, ms);
    ApplyBatchKeepsProjection(EMPTY, ms');
    RecordedIsUnique(ms, ms', s.bronze, s'.bronze);
    if OnePartitionPerKey(s.bronze) { SameBronzeSameView(s, s'); }
  }

  /** Records about `k` that are no newer than its Silver row leave the row alone: a delete is not undone. */
  lemma {:induction false} OlderEventsNeverApply(s: Store, ms: seq<Message>, k: Key)
    requires k in s.silver
    requires ApplyBatch(s, ms).Success?
    requires forall m :: m in ms && Acceptable(m) && About(BronzeOf(m), k) ==>
      || m.value.value.lsn.value < s.silver[k].lsn
      || (m.value.value.lsn.value == s.silver[k].lsn && m.coord.offset <= s.silver[k].coord.offset)
    ensures k in ApplyBatch(s, ms).value.silver
    ensures ApplyBatch(s, ms).value.silver[k] == s.silver[k]
  {
    if ms == [] {
    } else {
      OlderEventsNeverApply(s, ms[..|ms| - 1], k);
    }
  }

  // ----- Attributes of deleted customers -----

  /** `ms[i]` is a data record about `k`. */
  predicate DataAbout(ms: seq<Message>, i: nat, k: Key)
    requires i < |ms|
  {
    Acceptable(ms[i]) && About(BronzeOf(ms[i]), k)
  }

  function LsnAt(ms: seq<Message>, i: nat): int
    requires i < |ms| && Acceptable(ms[i]) && IsDataOp(BronzeOf(ms[i]).op)
  {
    ms[i].value.value.lsn.value
  }

  /** `ms[i]` beat every record about `k` that arrived before it, so Silver took it. */
  predicate Applied(ms: seq<Message>, i: nat, k: Key)
    requires i < |ms|
  {
    && DataAbout(ms, i, k)
    && forall j :: 0 <= j < i && DataAbout(ms, j, k) ==>
         LsnAt(ms, i) > LsnAt(ms, j) || (LsnAt(ms, i) == LsnAt(ms, j) && ms[i].coord.offset > ms[j].coord.offset)
  }

  predicate AppliedUpsert(ms: seq<Message>, i: nat, k: Key)
    requires i < |ms|
  {
    Applied(ms, i, k) && ms[i].value.value.op.value != 'd'
  }

  /** `ms[i]` is the last upsert about `k` that Silver took. */
  ghost predicate LastUpsertAt(ms: seq<Message>, k: Key, i: int) {
    && 0 <= i < |ms|
    && AppliedUpsert(ms, i, k)
    && forall j :: i < j < |ms| ==> !AppliedUpsert(ms, j, k)
  }

  /** The attributes Silver should hold after `ms`: those of the last upsert it took. */
  ghost predicate LastAppliedAttrs(ms: seq<Message>, k: Key, attrs: Attrs) {
    || (attrs == NO_ATTRS && forall i :: 0 <= i < |ms| ==> !AppliedUpsert(ms, i, k))
    || (exists i :: LastUpsertAt(ms, k, i) && attrs == ms[i].value.value.after.value.attrs)
  }

  /** Silver's row for `k`, described by the arrival sequence alone. */
  ghost predicate Tracks(ms: seq<Message>, k: Key, silver: map<Key, SilverRow>) {
    && (k in silver <==> exists i :: 0 <= i < |ms| && DataAbout(ms, i, k))
    && (k in silver ==>
          && LastAppliedAttrs(ms, k, silver[k].attrs)
          && (exists i :: 0 <= i < |ms| && IsRowOf(ms, i, k, silver[k]))
          && forall i :: 0 <= i < |ms| && DataAbout(ms, i, k) ==>
               || LsnAt(ms, i) < silver[k].lsn
               || (LsnAt(ms, i) == silver[k].lsn && ms[i].coord.offset <= silver[k].coord.offset))
  }

  ghost predicate IsRowOf(ms: seq<Message>, i: nat, k: Key, row: SilverRow)
    requires i < |ms|
  {
    DataAbout(ms, i, k) && row.lsn == LsnAt(ms, i) && row.coord == ms[i].coord
  }

  lemma {:induction false} PrefixAgrees(ms: seq<Message>, m: Message, k: Key)
    ensures forall i :: 0 <= i < |ms| ==> (DataAbout(ms + [m], i, k) <==> DataAbout(ms, i, k))
    ensures forall i :: 0 <= i < |ms| ==> (Applied(ms + [m], i, k) <==> Applied(ms, i, k))
    ensures forall i :: 0 <= i < |ms| ==> (AppliedUpsert(ms + [m], i, k) <==> AppliedUpsert(ms, i, k))
  {
    assert forall i :: 0 <= i < |ms| ==> (ms + [m])[i] == ms[i];
    assert forall i :: 0 <= i < |ms| ==> (DataAbout(ms + [m], i, k) <==> DataAbout(ms, i, k));
    assert forall i :: 0 <= i < |ms| && DataAbout(ms, i, k) ==> LsnAt(ms + [m], i) == LsnAt(ms, i);
  }

  /** The attributes recorded for a prefix carry over when the next record is not an applied upsert. */
  lemma {:induction false} AttrsCarryOver(ms: seq<Message>, m: Message, k: Key, attrs: Attrs)
    requires LastAppliedAttrs(ms, k, attrs)
    requires !AppliedUpsert(ms + [m], |ms|, k)
    ensures LastAppliedAttrs(ms + [m], k, attrs)
  {
    PrefixAgrees(ms, m, k);
    if exists i :: LastUpsertAt(ms, k, i) && attrs == ms[i].value.value.after.value.attrs {
      var i :| LastUpsertAt(ms, k, i) && attrs == ms[i].value.value.after.value.attrs;
      assert (ms + [m])[i] == ms[i];
      assert LastUpsertAt(ms + [m], k, i);
    }
  }

  /** A record that is a repetition or not about `k` leaves the description of `k` as it is. */
  lemma {:induction false} TracksOther(silver: map<Key, SilverRow>, ms: seq<Message>, m: Message, k: Key)
    requires Tracks(ms, k, silver)
    requires m in ms || !DataAbout(ms + [m], |ms|, k)
    ensures Tracks(ms + [m], k, silver)
  {
    hide Applied, LastAppliedAttrs;
    var all, n := ms + [m], |ms|;
    PrefixAgrees(ms, m, k);
    assert forall i :: 0 <= i < n ==> all[i] == ms[i];
    assert forall i :: 0 <= i < n && DataAbout(ms, i, k) ==> LsnAt(all, i) == LsnAt(ms, i);
    NotApplied(ms, m, k);
    if m in ms {
      var i :| 0 <= i < n && ms[i] == m;
      assert DataAbout(all, n, k) ==> DataAbout(all, i, k) && LsnAt(all, i) == LsnAt(all, n);
    }
    if k in silver {
      AttrsCarryOver(ms, m, k, silver[k].attrs);
      var i :| 0 <= i < n && IsRowOf(ms, i, k, silver[k]);
      assert IsRowOf(all, i, k, silver[k]);
    }
  }

  lemma {:induction false} NotApplied(ms: seq<Message>, m: Message, k: Key)
    requires m in ms || !DataAbout(ms + [m], |ms|, k)
    ensures !Applied(ms + [m], |ms|, k)
  {
    hide Acceptable, About;
    if m in ms {
      var i :| 0 <= i < |ms| && ms[i] == m;
      assert (ms + [m])[i] == m;
      assert DataAbout(ms + [m], |ms|, k) ==> DataAbout(ms + [m], i, k);
    }
  }

  /** Silver's rows after one record. */
  lemma {:induction false} RowAfterRecord(t: Store, m: Message, k: Key)
    requires ApplyMessage(t, m).Success? && (m.coord !in t.bronze ==> Acceptable(m))
    ensures Lookup(ApplyMessage(t, m).value.0.silver, k) ==
      if m.coord !in t.bronze && Acceptable(m) && About(BronzeOf(m), k) then
        Some(UpsertRow(Lookup(t.silver, k), m.coord, BronzeOf(m)))
      else Lookup(t.silver, k)
  {
    hide UpsertRow;
  }

  lemma {:induction false} TracksStep(t: Store, ms: seq<Message>, m: Message, k: Key)
    requires Tracks(ms, k, t.silver)
    requires ApplyMessage(t, m).Success?
    requires m.coord in t.bronze ==> m in ms
    requires m.coord !in t.bronze ==> Acceptable(m)
    ensures Tracks(ms + [m], k, ApplyMessage(t, m).value.0.silver)
  {
    hide Tracks, ApplyMessage, UpsertRow;
    RowAfterRecord(t, m, k);
    assert (ms + [m])[|ms|] == m;
    if m.coord in t.bronze || !DataAbout(ms + [m], |ms|, k) {
      TracksOther(t.silver, ms, m, k);
      SameRowTracks(ms + [m], k, t.silver, ApplyMessage(t, m).value.0.silver);
    } else {
      TracksNewRecord(t.silver, ms, m, k);
      var row := UpsertRow(Lookup(t.silver, k), m.coord, BronzeOf(m));
      SameRowTracks(ms + [m], k, t.silver[k := row], ApplyMessage(t, m).value.0.silver);
    }
  }

  lemma {:induction false} SameRowTracks(ms: seq<Message>, k: Key, silver: map<Key, SilverRow>, silver': map<Key, SilverRow>)
    requires Tracks(ms, k, silver) && Lookup(silver, k) == Lookup(silver', k)
    ensures Tracks(ms, k, silver')
  {
    hide LastAppliedAttrs, IsRowOf, DataAbout;
    assert k in silver <==> k in silver';
  }

  /** The record wins against the row iff it wins against every earlier record. */
  lemma {:induction false} TakenIsApplied(silver: map<Key, SilverRow>, ms: seq<Message>, m: Message, k: Key)
    requires Tracks(ms, k, silver) && k in silver
    requires DataAbout(ms + [m], |ms|, k)
    ensures Newer(LsnAt(ms + [m], |ms|), m.coord.offset, silver[k].lsn, silver[k].coord.offset) <==>
      Applied(ms + [m], |ms|, k)
  {
    hide Acceptable, About, LastAppliedAttrs;
    var all, n := ms + [m], |ms|;
    assert forall i :: 0 <= i < n ==> all[i] == ms[i];
    forall i | 0 <= i < n ensures DataAbout(all, i, k) <==> DataAbout(ms, i, k) {
    }
    var i :| 0 <= i < n && IsRowOf(ms, i, k, silver[k]);
    assert DataAbout(all, i, k);
  }

  lemma {:induction false} RowsStay(ms: seq<Message>, m: Message, k: Key, row: SilverRow)
    requires exists i :: 0 <= i < |ms| && IsRowOf(ms, i, k, row)
    ensures exists i :: 0 <= i < |ms + [m]| && IsRowOf(ms + [m], i, k, row)
  {
    var i :| 0 <= i < |ms| && IsRowOf(ms, i, k, row);
    assert (ms + [m])[i] == ms[i];
    assert IsRowOf(ms + [m], i, k, row);
  }

  /** A new record about a known customer. */
  lemma {:induction false} TracksKnownCustomer(silver: map<Key, SilverRow>, ms: seq<Message>, m: Message, k: Key)
    requires Tracks(ms, k, silver) && k in silver
    requires DataAbout(ms + [m], |ms|, k)
    ensures Tracks(ms + [m], k, silver[k := UpsertRow(Some(silver[k]), m.coord, BronzeOf(m))])
  {
    hide Applied;
    var all, n := ms + [m], |ms|;
    var row := UpsertRow(Some(silver[k]), m.coord, BronzeOf(m));
    PrefixAgrees(ms, m, k);
    assert forall i :: 0 <= i < n ==> all[i] == ms[i];
    assert all[n] == m;
    TakenIsApplied(silver, ms, m, k);
    RowsStay(ms, m, k, silver[k]);
    if !Applied(all, n, k) || m.value.value.op.value == 'd' {
      AttrsCarryOver(ms, m, k, row.attrs);
    } else {
      assert LastUpsertAt(all, k, n);
    }
    if Applied(all, n, k) {
      assert IsRowOf(all, n, k, row);
    }
  }

  /** The first data record about a customer. */
  lemma {:induction false} TracksNewCustomer(silver: map<Key, SilverRow>, ms: seq<Message>, m: Message, k: Key)
    requires Tracks(ms, k, silver) && k !in silver
    requires DataAbout(ms + [m], |ms|, k)
    ensures Tracks(ms + [m], k, silver[k := UpsertRow(None, m.coord, BronzeOf(m))])
  {
    var all, n := ms + [m], |ms|;
    var row := UpsertRow(None, m.coord, BronzeOf(m));
    PrefixAgrees(ms, m, k);
    assert all[n] == m;
    assert Applied(all, n, k);
    assert IsRowOf(all, n, k, row);
    assert forall i :: 0 <= i < n ==> !AppliedUpsert(all, i, k);
    if m.value.value.op.value != 'd' { assert LastUpsertAt(all, k, n); }
  }

  lemma {:induction false} TracksNewRecord(silver: map<Key, SilverRow>, ms: seq<Message>, m: Message, k: Key)
    requires Tracks(ms, k, silver)
    requires DataAbout(ms + [m], |ms|, k)
    ensures Tracks(ms + [m], k, silver[k := UpsertRow(Lookup(silver, k), m.coord, BronzeOf(m))])
  {
    hide Tracks, UpsertRow;
    if k in silver {
      TracksKnownCustomer(silver, ms, m, k);
    } else {
      TracksNewCustomer(silver, ms, m, k);
    }
  }

  /**
   * Exactly which attributes a Silver row has, deleted or not, for every arrival order:
   * those of the last upsert that beat all records about the key before it.
   */
  lemma {:induction false} SilverAttributesByArrival(ms: seq<Message>, k: Key)
    requires Consistent(ms)
    requires ApplyBatch(EMPTY, ms).Success?
    ensures k in ApplyBatch(EMPTY, ms).value.silver <==> exists i :: 0 <= i < |ms| && DataAbout(ms, i, k)
    ensures k in ApplyBatch(EMPTY, ms).value.silver ==>
      LastAppliedAttrs(ms, k, ApplyBatch(EMPTY, ms).value.silver[k].attrs)
  {
    ArrivalTracked(ms, k);
  }

  lemma {:induction false} ArrivalTracked(ms: seq<Message>, k: Key)
    requires Consistent(ms)
    requires ApplyBatch(EMPTY, ms).Success?
    ensures Tracks(ms, k, ApplyBatch(EMPTY, ms).value.silver)
  {
    if ms == [] {
    } else {
      var front, last := ms[..|ms| - 1], ms[|ms| - 1];
      assert ms == front + [last];
      SeenOrNew(front, last);
      ArrivalTracked(front, k);
      TracksStep(ApplyBatch(EMPTY, front).value, front, last, k);
    }
  }

  /** Bronze absorbs a record iff that very record was read before. */
  lemma {:induction false} SeenOrNew(front: seq<Message>, last: Message)
    requires Consistent(front + [last])
    requires ApplyBatch(EMPTY, front + [last]).Success?
    ensures Consistent(front) && ApplyBatch(EMPTY, front).Success? && Acceptable(last)
    ensures last.coord in ApplyBatch(EMPTY, front).value.bronze <==> last in front
  {
    var ms := front + [last];
    assert ms[..|ms| - 1] == front && ms[|ms| - 1] == last;
    forall i, j | 0 <= i < |front| && 0 <= j < |front| && front[i].coord == front[j].coord
      ensures front[i] == front[j]
    {
      assert ms[i] == front[i] && ms[j] == front[j];
    }
    BatchOutcome(EMPTY, ms);
    assert last in ms;
    BatchOutcome(EMPTY, front);
    if last.coord in ApplyBatch(EMPTY, front).value.bronze {
      var m :| m in front && m.coord == last.coord;
      var i :| 0 <= i < |front| && front[i] == m;
      assert ms[i] == m && ms[|front|] == last;
    }
  }

  function SampleEvent(op: char, lsn: int, k: Key, attrs: Attrs): Event {
    Event(Some(op), Some(lsn), None, None, None, if op == 'd' then None else Some(Image(Some(k), attrs)))
  }

  function SampleCreate(k: Key, tp: TopicPartition, attrs: Attrs): Message {
    Message(Coord(tp, 0), Some(k), Some(SampleEvent('c', 1, k, attrs)))
  }

  function SampleDelete(k: Key, tp: TopicPartition, attrs: Attrs): Message {
    Message(Coord(tp, 1), Some(k), Some(SampleEvent('d', 2, k, attrs)))
  }

  lemma {:induction false} CreateFirst(k: Key, tp: TopicPartition, attrs: Attrs)
    requires k != ""
    ensures var create, delete := SampleCreate(k, tp, attrs), SampleDelete(k, tp, attrs);
      ApplyBatch(EMPTY, [create, delete]) == Success(Store(
        map[Coord(tp, 0) := BronzeOf(create), Coord(tp, 1) := BronzeOf(delete)],
        map[k := SilverRow(attrs, true, 'd', 2, None, Coord(tp, 1))]))
  {
    var create, delete := SampleCreate(k, tp, attrs), SampleDelete(k, tp, attrs);
    BatchOfTwo(EMPTY, create, delete);
    var s := ApplyBatch(EMPTY, [create, delete]).value;
    assert s.bronze == map[Coord(tp, 0) := BronzeOf(create), Coord(tp, 1) := BronzeOf(delete)];
    assert s.silver == map[k := SilverRow(attrs, true, 'd', 2, None, Coord(tp, 1))];
  }

  lemma {:induction false} DeleteFirst(k: Key, tp: TopicPartition, attrs: Attrs)
    requires k != ""
    ensures var create, delete := SampleCreate(k, tp, attrs), SampleDelete(k, tp, attrs);
      ApplyBatch(EMPTY, [delete, create]) == Success(Store(
        map[Coord(tp, 1) := BronzeOf(delete), Coord(tp, 0) := BronzeOf(create)],
        map[k := SilverRow(NO_ATTRS, true, 'd', 2, None, Coord(tp, 1))]))
  {
    var create, delete := SampleCreate(k, tp, attrs), SampleDelete(k, tp, attrs);
    BatchOfTwo(EMPTY, delete, create);
    var s := ApplyBatch(EMPTY, [delete, create]).value;
    assert s.bronze == map[Coord(tp, 1) := BronzeOf(delete), Coord(tp, 0) := BronzeOf(create)];
    assert s.silver == map[k := SilverRow(NO_ATTRS, true, 'd', 2, None, Coord(tp, 1))];
  }

  /**
   * Order-independence of the fold stops at the live view: a deleted row keeps a name or NULLs
   * depending on arrival. Only in-order reading, as in CdcSystem, rules that out.
   */
  lemma {:induction false} DeletedAttributesDependOnOrder(k: Key, tp: TopicPartition, attrs: Attrs)
    requires k != "" && attrs != NO_ATTRS
    ensures
      var create, delete := SampleCreate(k, tp, attrs), SampleDelete(k, tp, attrs);
      var r, r' := ApplyBatch(EMPTY, [create, delete]), ApplyBatch(EMPTY, [delete, create]);
      && r.Success? && r'.Success?
      && r.value.bronze == r'.value.bronze
      && CustomersCurrent(r.value.silver) == CustomersCurrent(r'.value.silver) == map[]
      && k in r.value.silver && r.value.silver[k].attrs == attrs
      && k in r'.value.silver && r'.value.silver[k].attrs == NO_ATTRS
  {
    hide ApplyBatch, BronzeOf, HasKey, Supported;
    CreateFirst(k, tp, attrs);
    DeleteFirst(k, tp, attrs);
  }

  /** With one key on two partitions the guard can tie, and the first arrival wins. */
  lemma {:induction false} SplitKeyDependsOnOrder(k: Key, topic: string, attrs: Attrs, attrs': Attrs)
    requires k != "" && attrs != attrs'
    ensures
      var a := Message(Coord(TopicPartition(topic, 0), 0), Some(k), Some(SampleEvent('u', 1, k, attrs)));
      var b := Message(Coord(TopicPartition(topic, 1), 0), Some(k), Some(SampleEvent('u', 1, k, attrs')));
      var r, r' := ApplyBatch(EMPTY, [a, b]), ApplyBatch(EMPTY, [b, a]);
      && r.Success? && r'.Success?
      && r.value.bronze == r'.value.bronze
      && CustomersCurrent(r.value.silver) != CustomersCurrent(r'.value.silver)
  {
    var a := Message(Coord(TopicPartition(topic, 0), 0), Some(k), Some(SampleEvent('u', 1, k, attrs)));
    var b := Message(Coord(TopicPartition(topic, 1), 0), Some(k), Some(SampleEvent('u', 1, k, attrs')));
    BatchOfTwo(EMPTY, a, b);
    BatchOfTwo(EMPTY, b, a);
    assert CustomersCurrent(ApplyBatch(EMPTY, [a, b]).value.silver)[k] == attrs;
    assert CustomersCurrent(ApplyBatch(EMPTY, [b, a]).value.silver)[k] == attrs';
  }

  lemma {:induction false} BatchOfTwo(s: Store, m: Message, m': Message)
    ensures ApplyBatch(s, [m, m']) ==
      match ApplyMessage(s, m)
      case Failure(e) => Failure(e)
      case Success(p) =>
        (match ApplyMessage(p.0, m')
         case Failure(e) => Failure(e)
         case Success(q) => Success(q.0))
  {
    assert [m, m'][..1] == [m] && [m][..0] == [];
    assert ApplyBatch(s, [m][..0]) == Success(s);
  }
}
