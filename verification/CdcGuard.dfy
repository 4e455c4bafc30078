/**
 * The two tables by their columns: which records are stored, what their rows hold, and the
 * (LSN, offset) guard, stated with the columns of the records and plain comparisons only.
 */
module CdcGuard {
  import opened Prelude
  import opened CdcStore
  import opened CdcMaterializer
  import opened CdcSystem

  /** `m` reports a change of customer `k`: a row image of `k`, or a delete under the record key `k`. */
  predicate Reports(m: Message, k: Key) {
    && m.key.Some? && m.value.Some?
    && match m.value.value.op
       case Some('d') => m.key.value == k
       case Some(op) => op in {'r', 'c', 'u'} && m.value.value.after.Some? && m.value.value.after.value.customerId == Some(k)
       case None => false
  }

  /** What the materializer raises for a record it has not stored before, if anything. */
  function Refusal(m: Message): Option<CdcError> {
    match (m.key, m.value)
    case (None, _) => Some(MissingBusinessKey)
    case (Some(key), value) =>
      if key == "" then Some(MissingBusinessKey)
      else if value.None? then None
      else if value.value.op !in {Some('r'), Some('c'), Some('u'), Some('d'), Some('t')} then Some(UnsupportedOperation)
      else if value.value.lsn.None? then Some(MissingLsn)
      else if value.value.op in {Some('d'), Some('t')} then None
      else if value.value.after.None? then Some(MissingAfter)
      else if value.value.after.value.customerId.None? then Some(MissingAfterKey)
      else None
  }

  lemma {:induction false} AcceptableColumns(m: Message)
    ensures Acceptable(m) <==> Refusal(m).None?
    ensures forall t: Store :: m.coord !in t.bronze && Refusal(m).Some? ==> ApplyMessage(t, m) == Failure(Refusal(m).value)
    ensures Acceptable(m) ==> forall k :: About(BronzeOf(m), k) <==> Reports(m, k)
    ensures Acceptable(m) && m.value.Some? && IsDataOp(m.value.value.op.value) ==> m.value.value.lsn.Some?
  {
  }

  /** The columns INSERT gives the Bronze row of `m`. */
  ghost predicate IsEvidenceOf(row: BronzeRow, m: Message) {
    && m.key == Some(row.customerId)
    && (m.value.None? ==> row == BronzeRow(row.customerId, 't', None, None, None, None, None))
    && (m.value.Some? ==>
          && m.value.value.op == Some(row.op)
          && m.value.value.lsn == row.lsn && m.value.value.tsMs == row.tsMs && m.value.value.txId == row.txId
          && m.value.value.before == row.before && m.value.value.after == row.after)
  }

  /**
   * A batch is stored whole iff none of its records is refused. Bronze then has a row for the
   * coordinates of the batch and no others, and each row holds every column of its record.
   */
  lemma {:induction false} BronzeIsEvidence(ms: seq<Message>)
    requires Consistent(ms)
    ensures ApplyBatch(EMPTY, ms).Success? <==> forall m :: m in ms ==> Refusal(m).None?
    ensures ApplyBatch(EMPTY, ms).Success? ==>
      var bronze := ApplyBatch(EMPTY, ms).value.bronze;
      && (forall c :: c in bronze <==> exists m :: m in ms && m.coord == c)
      && (forall m :: m in ms ==> m.coord in bronze && IsEvidenceOf(bronze[m.coord], m))
  {
    hide ApplyBatch;
    BatchOutcome(EMPTY, ms);
    forall m ensures Acceptable(m) <==> Refusal(m).None? {
      AcceptableColumns(m);
    }
    forall m | m in ms && Acceptable(m) ensures IsEvidenceOf(BronzeOf(m), m) {
      EvidenceColumns(m);
    }
  }

  lemma {:induction false} EvidenceColumns(m: Message)
    requires Acceptable(m)
    ensures IsEvidenceOf(BronzeOf(m), m)
  {
  }

  /** The error of a batch is what its first refused record raises, wherever the batch starts from. */
  lemma {:induction false} FirstRefusalAborts(ms: seq<Message>, i: nat)
    requires Consistent(ms) && i < |ms| && Refusal(ms[i]).Some?
    requires forall j :: 0 <= j < i ==> Refusal(ms[j]).None?
    ensures ApplyBatch(EMPTY, ms) == Failure(Refusal(ms[i]).value)
  {
    hide Acceptable, Refusal, ApplyMessage;
    var front := ms[..i];
    forall m ensures Acceptable(m) <==> Refusal(m).None? {
      AcceptableColumns(m);
    }
    AcceptableColumns(ms[i]);
    assert Consistent(front);
    BatchOutcome(EMPTY, front);
    assert ApplyBatch(EMPTY, front).Success?;
    assert ms[i].coord !in ApplyBatch(EMPTY, front).value.bronze;
    assert ms[..i + 1][..i] == front && ms[..i + 1][i] == ms[i];
    FailureIsFinal(EMPTY, ms, i + 1);
  }

  // ----- The guard -----

  /** `row` holds the position, operation and source time of the record `m`. */
  ghost predicate IsRowFor(row: SilverRow, m: Message) {
    && m.coord == row.coord && m.value.Some?
    && m.value.value.lsn == Some(row.lsn) && m.value.value.op == Some(row.op) && m.value.value.tsMs == row.tsMs
    && (row.isDeleted <==> row.op == 'd')
    && (row.op != 'd' ==> m.value.value.after.Some? && m.value.value.after.value.attrs == row.attrs)
  }

  /**
   * After any accepted batch a customer has a Silver row iff some record reports it, and the row
   * is that of the report with the greatest LSN and, among those, the greatest offset.
   */
  lemma {:induction false} RowIsGreatestReport(ms: seq<Message>, k: Key)
    requires Consistent(ms) && ApplyBatch(EMPTY, ms).Success?
    ensures var silver := ApplyBatch(EMPTY, ms).value.silver;
      && (k in silver <==> exists m :: m in ms && Reports(m, k))
      && (k in silver ==>
            && (exists m :: m in ms && Reports(m, k) && IsRowFor(silver[k], m))
            && forall m :: m in ms && Reports(m, k) ==>
                 && m.value.value.lsn.Some?
                 && (|| m.value.value.lsn.value < silver[k].lsn
                     || (m.value.value.lsn.value == silver[k].lsn && m.coord.offset <= silver[k].coord.offset)))
  {
    hide ApplyBatch, Acceptable, About, Reports, Recorded;
    var s := ApplyBatch(EMPTY, ms).value;
    ApplyBatchKeepsProjection(EMPTY, ms);
    BatchOutcome(EMPTY, ms);
    forall m | m in ms
      ensures About(s.bronze[m.coord], k) <==> Reports(m, k)
      ensures IsEvidenceOf(s.bronze[m.coord], m)
    {
      StoredRecord(ms, m, s.bronze, k);
    }
    CoordsOfBatch(ms, s.bronze);
    if m :| m in ms && Reports(m, k) {
      SubjectHasRow(s, m.coord, k);
    }
    if k in s.silver {
      RowAndRecord(s, ms, k);
    }
  }

  lemma {:induction false} CoordsOfBatch(ms: seq<Message>, bronze: map<Coord, BronzeRow>)
    requires Recorded(map[], ms, bronze)
    ensures forall c :: c in bronze <==> exists m :: m in ms && m.coord == c
  {
  }

  lemma {:induction false} StoredRecord(ms: seq<Message>, m: Message, bronze: map<Coord, BronzeRow>, k: Key)
    requires Recorded(map[], ms, bronze) && m in ms
    ensures m.coord in bronze && IsEvidenceOf(bronze[m.coord], m)
    ensures About(bronze[m.coord], k) <==> Reports(m, k)
  {
    hide Acceptable, About, Reports;
    AcceptableColumns(m);
    EvidenceColumns(m);
  }

  lemma {:induction false} SubjectHasRow(s: Store, c: Coord, k: Key)
    requires SilverProjectsBronze(s) && c in s.bronze && About(s.bronze[c], k)
    ensures k in s.silver
  {
  }

  lemma {:induction false} RowAndRecord(s: Store, ms: seq<Message>, k: Key)
    requires SilverProjectsBronze(s) && k in s.silver
    requires forall c :: c in s.bronze <==> exists m :: m in ms && m.coord == c
    requires forall m :: m in ms ==> IsEvidenceOf(s.bronze[m.coord], m) && (About(s.bronze[m.coord], k) <==> Reports(m, k))
    ensures exists m :: m in ms && Reports(m, k) && IsRowFor(s.silver[k], m)
    ensures forall m :: m in ms && Reports(m, k) ==>
      && m.value.value.lsn.Some?
      && (|| m.value.value.lsn.value < s.silver[k].lsn
          || (m.value.value.lsn.value == s.silver[k].lsn && m.coord.offset <= s.silver[k].coord.offset))
  {
    hide Reports;
    var row := s.silver[k];
    var m :| m in ms && m.coord == row.coord;
    assert IsRowFor(row, m);
    forall m | m in ms && Reports(m, k)
      ensures m.value.Some? && m.value.value.lsn.Some?
      ensures || m.value.value.lsn.value < row.lsn
              || (m.value.value.lsn.value == row.lsn && m.coord.offset <= row.coord.offset)
    {
      assert About(s.bronze[m.coord], k);
    }
  }

  /** With one partition per customer the view shows that report: nothing after a delete, else its row image. */
  lemma {:induction false} ViewIsGreatestReport(ms: seq<Message>, k: Key, top: Message)
    requires Consistent(ms) && ApplyBatch(EMPTY, ms).Success?
    requires forall m, m' :: m in ms && m' in ms && Reports(m, k) && Reports(m', k) ==> m.coord.tp == m'.coord.tp
    requires top in ms && Reports(top, k) && top.value.value.lsn.Some?
    requires forall m :: m in ms && Reports(m, k) && m.value.value.lsn.Some? ==>
      || m.value.value.lsn.value < top.value.value.lsn.value
      || (m.value.value.lsn == top.value.value.lsn && m.coord.offset <= top.coord.offset)
    ensures var view := CustomersCurrent(ApplyBatch(EMPTY, ms).value.silver);
      && (k in view <==> top.value.value.op != Some('d'))
      && (k in view ==> view[k] == top.value.value.after.value.attrs)
  {
    hide ApplyBatch, Reports;
    RowIsGreatestReport(ms, k);
    var row := ApplyBatch(EMPTY, ms).value.silver[k];
    var m :| m in ms && Reports(m, k) && IsRowFor(row, m);
    assert m.coord == top.coord;
    assert Reports(top, k);
  }

  /** A batch on top of any tables: a Silver row never disappears and its (LSN, offset) never falls. */
  lemma {:induction false} BatchNeverLowers(s: Store, ms: seq<Message>, k: Key)
    requires ApplyBatch(s, ms).Success? && k in s.silver
    ensures var silver := ApplyBatch(s, ms).value.silver;
      && k in silver
      && (|| s.silver[k].lsn < silver[k].lsn
          || (s.silver[k].lsn == silver[k].lsn && s.silver[k].coord.offset <= silver[k].coord.offset))
  {
    if ms == [] {
    } else {
      BatchNeverLowers(s, ms[..|ms| - 1], k);
    }
  }

  /** Along any run, through crashes, replays and rebalances, the same holds between any two states. */
  lemma {:induction false} LsnNeverFalls(states: seq<System>, home: Home, i: nat, j: nat, k: Key)
    requires Run(states, home) && i <= j < |states|
    requires k in states[i].store.silver
    ensures var silver, silver' := states[i].store.silver, states[j].store.silver;
      && k in silver'
      && (|| silver[k].lsn < silver'[k].lsn
          || (silver[k].lsn == silver'[k].lsn && silver[k].coord.offset <= silver'[k].coord.offset))
  {
    hide Run, Next;
    if i == j {
    } else {
      LsnNeverFalls(states, home, i, j - 1, k);
      StepOfRun(states, home, j - 1);
      StepNeverLowers(states[j - 1], states[j], home, k);
    }
  }

  lemma {:induction false} StepOfRun(states: seq<System>, home: Home, j: nat)
    requires Run(states, home) && j + 1 < |states|
    ensures Next(states[j], states[j + 1], home)
  {
    hide Next, Init;
  }

  lemma {:induction false} StepNeverLowers(s: System, s': System, home: Home, k: Key)
    requires Next(s, s', home) && k in s.store.silver
    ensures k in s'.store.silver
    ensures || s.store.silver[k].lsn < s'.store.silver[k].lsn
            || (&& s.store.silver[k].lsn == s'.store.silver[k].lsn
                && s.store.silver[k].coord.offset <= s'.store.silver[k].coord.offset)
  {
    hide WellKeyed, ApplyBatch, Polled;
    if ms, position', acked :| Process(s, s', ms, position', acked) {
      BatchNeverLowers(s.store, ms, k);
    }
  }
}
