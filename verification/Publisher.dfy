/**
 * kafka/producer/publish_orders.py: a finite batch of order events through an asynchronous
 * producer with a bounded buffer. Success means that every event was acknowledged.
 */
module Publisher {
  import opened Prelude
  import opened Watermarks
  import opened WatermarkRuns
  import opened OrderEvents

  datatype Message = Message(key: string, event: Envelope)

  /** Command line: an optional row cap and an all-or-nothing backfill interval. */
  datatype Args = Args(limit: Option<nat>, start: Option<int>, end: Option<int>)

  datatype PublishError =
    | BoundsTogether
    | MissingCandidate
    | NotDelivered(remaining: nat)
    | DeliveryFailed(errors: nat)

  /** The mode and bounds of the query; `mark` is the staging_orders row of etl_watermark, if any. */
  function ReadBounds(args: Args, mark: Option<Mark>): Result<(Mode, Window), PublishError> {
    if args.start.None? != args.end.None? then Failure(BoundsTogether)
    else if args.start.Some? then
      Success((Backfill(args.start.value, args.end.value), Window(args.start.value, args.end.value)))
    else if mark.None? || mark.value.candidate.None? then Failure(MissingCandidate)
    else Success((Incremental, Window(mark.value.watermark, mark.value.candidate.value)))
  }

  /** `rows` is the full answer of the query: every staged order of the window once, oldest first. */
  ghost predicate IsCursor(staging: map<Key, Row>, mode: Mode, w: Window, rows: seq<Key>) {
    && (forall k :: k in rows <==> k in staging && InWindow(mode, w, staging[k].updatedAt))
    && (forall i, j :: 0 <= i < j < |rows| ==> rows[i] != rows[j])
    && (forall i, j :: 0 <= i < j < |rows| && rows[i] in staging && rows[j] in staging ==>
          staging[rows[i]].updatedAt <= staging[rows[j]].updatedAt)
  }

  /** LIMIT: the first rows of the query, up to the cap. */
  function Limited(rows: seq<Key>, limit: Option<nat>): seq<Key> {
    if limit.Some? && limit.value < |rows| then rows[..limit.value] else rows
  }

  /** `m` is the message of version `v`, whenever it was produced. */
  predicate Announces(m: Message, v: Version) {
    m.key == v.orderId && m.event.producedAt.Some? && m.event == BuildEvent(v, m.event.producedAt.value)
  }

  /** `sent` is one message per row, in the order of the rows. */
  predicate AnnouncesAll(sent: seq<Message>, staging: map<Key, Row>, rows: seq<Key>) {
    && |sent| == |rows|
    && forall i :: 0 <= i < |rows| ==> rows[i] in staging && Announces(sent[i], StagedVersion(rows[i], staging[rows[i]]))
  }

  /** What a log holds beyond the prefix `base`, in any order: partitions interleave freely. */
  ghost function Beyond(base: seq<Message>, log: seq<Message>): multiset<Message>
    requires base <= log
  {
    multiset(log[|base|..])
  }

  lemma {:induction false} Grows(base: seq<Message>, log: seq<Message>, m: Message)
    requires base <= log
    ensures base <= log + [m]
    ensures Beyond(base, log + [m]) == Beyond(base, log) + multiset{m}
  {
    assert (log + [m])[|base|..] == log[|base|..] + [m];
  }

  /** Where every message that was sent is: in flight, acknowledged or failed; `written` failed after reaching the log. */
  datatype Ledger = Ledger(
    sent: multiset<Message>, inFlight: multiset<Message>,
    acked: multiset<Message>, failed: multiset<Message>, written: multiset<Message>)

  /** Conservation: nothing sent is forgotten, and the log grew by what was acknowledged or written. */
  ghost predicate Balanced(l: Ledger, appended: multiset<Message>) {
    && l.sent == l.inFlight + l.acked + l.failed
    && l.written <= l.failed
    && appended == l.acked + l.written
  }

  lemma {:induction false} AckBalances(l: Ledger, appended: multiset<Message>, rest: multiset<Message>, m: Message)
    requires Balanced(l, appended) && l.inFlight == rest + multiset{m}
    ensures Balanced(l.(inFlight := rest, acked := l.acked + multiset{m}), appended + multiset{m})
  {
  }

  lemma {:induction false} LossBalances(l: Ledger, appended: multiset<Message>, rest: multiset<Message>, m: Message)
    requires Balanced(l, appended) && l.inFlight == rest + multiset{m}
    ensures Balanced(l.(inFlight := rest, failed := l.failed + multiset{m}), appended)
  {
  }

  lemma {:induction false} WriteBalances(l: Ledger, appended: multiset<Message>, rest: multiset<Message>, m: Message)
    requires Balanced(l, appended) && l.inFlight == rest + multiset{m}
    ensures Balanced(
      l.(inFlight := rest, failed := l.failed + multiset{m}, written := l.written + multiset{m}), appended + multiset{m})
  {
  }

  /** After a clean flush the log grew by exactly what was sent, otherwise by no more. */
  lemma {:induction false} BalanceAtEnd(l: Ledger, appended: multiset<Message>)
    requires Balanced(l, appended)
    ensures appended <= l.sent
    ensures l.inFlight == multiset{} && |l.failed| == 0 ==> appended == l.sent && |l.acked| == |l.sent|
  {
  }

  /**
   * The client library: a bounded buffer of messages in flight, the broker's log, and the
   * two results of the delivery callback. A failed delivery may still have reached the log.
   */
  class Producer {
    const capacity: nat
    var buffer: multiset<Message>
    var log: seq<Message>
    var delivered: nat
    var errors: nat
    ghost const base: seq<Message>
    ghost var sent: seq<Message>
    ghost var ledger: Ledger

    ghost predicate Valid()
      reads this
    {
      && 0 < capacity && |buffer| <= capacity
      && base <= log
      && Balanced(ledger, Beyond(base, log))
      && ledger.sent == multiset(sent) && ledger.inFlight == buffer
      && delivered == |ledger.acked| && errors == |ledger.failed|
    }

    constructor (capacity: nat, log: seq<Message>)
      requires 0 < capacity
      ensures Valid() && sent == [] && base == log && this.log == log && this.capacity == capacity
    {
      this.capacity := capacity;
      this.log, this.base := log, log;
      buffer, sent, delivered, errors := multiset{}, [], 0, 0;
      ledger := Ledger(multiset{}, multiset{}, multiset{}, multiset{}, multiset{});
    }

    /** produce(): false stands for BufferError. */
    method Produce(m: Message) returns (accepted: bool)
      requires Valid()
      modifies this
      ensures Valid() && log == old(log)
      ensures accepted <==> old(|buffer|) < capacity
      ensures if accepted then sent == old(sent) + [m] && buffer == old(buffer) + multiset{m}
              else sent == old(sent) && buffer == old(buffer)
    {
      accepted := |buffer| < capacity;
      if accepted {
        buffer, sent := buffer + multiset{m}, sent + [m];
        ledger := ledger.(sent := ledger.sent + multiset{m}, inFlight := buffer);
      }
    }

    /** The delivery callback without an error. */
    method Acknowledge(m: Message)
      requires Valid() && m in buffer
      modifies this
      ensures Valid() && sent == old(sent) && log == old(log) + [m] && buffer == old(buffer) - multiset{m}
    {
      hide Balanced, Beyond;
      var rest := buffer - multiset{m};
      AckBalances(ledger, Beyond(base, log), rest, m);
      Grows(base, log, m);
      ledger := ledger.(inFlight := rest, acked := ledger.acked + multiset{m});
      buffer, delivered := rest, delivered + 1;
      log := log + [m];
    }

    /** The delivery callback with an error, for a record that never reached the log. */
    method Reject(m: Message)
      requires Valid() && m in buffer
      modifies this
      ensures Valid() && sent == old(sent) && log == old(log) && buffer == old(buffer) - multiset{m}
    {
      hide Balanced, Beyond;
      var rest := buffer - multiset{m};
      LossBalances(ledger, Beyond(base, log), rest, m);
      ledger := ledger.(inFlight := rest, failed := ledger.failed + multiset{m});
      buffer, errors := rest, errors + 1;
    }

    /** The delivery callback with an error, for a record that had reached the log all the same. */
    method RejectWritten(m: Message)
      requires Valid() && m in buffer
      modifies this
      ensures Valid() && sent == old(sent) && log == old(log) + [m] && buffer == old(buffer) - multiset{m}
    {
      hide Balanced, Beyond;
      var rest := buffer - multiset{m};
      WriteBalances(ledger, Beyond(base, log), rest, m);
      Grows(base, log, m);
      ledger := ledger.(inFlight := rest, failed := ledger.failed + multiset{m}, written := ledger.written + multiset{m});
      buffer, errors := rest, errors + 1;
      log := log + [m];
    }

    /** One callback for any message in flight and with any outcome. */
    method Serve()
      requires Valid() && |buffer| > 0
      modifies this
      ensures Valid() && sent == old(sent)
      ensures old(log) <= log && |buffer| == old(|buffer|) - 1
    {
      hide Valid;
      var m :| m in buffer;
      var reached: bool, error: bool := *, *;
      if error && reached {
        RejectWritten(m);
      } else if error {
        Reject(m);
      } else {
        Acknowledge(m);
      }
    }

    /** poll() or flush(): callbacks run for some of the messages in flight, for at least `least` of them. */
    method Poll(least: nat) returns (remaining: nat)
      requires Valid() && least <= |buffer|
      modifies this
      ensures Valid() && sent == old(sent) && old(log) <= log
      ensures remaining == |buffer| <= old(|buffer|) - least
    {
      var n: nat := *;
      if n < least || |buffer| < n { n := least; }
      ghost var start := |buffer|;
      for i := 0 to n
        invariant Valid() && sent == old(sent) && old(log) <= log
        invariant |buffer| == start - i
      {
        Serve();
      }
      remaining := |buffer|;
    }

    /** The retry loop around produce(): a full buffer is polled until a slot is free. */
    method Enqueue(m: Message)
      requires Valid()
      modifies this
      ensures Valid() && sent == old(sent) + [m] && old(log) <= log
    {
      var accepted := Produce(m);
      while !accepted
        invariant Valid() && old(log) <= log
        invariant sent == if accepted then old(sent) + [m] else old(sent)
        decreases !accepted, |buffer|
      {
        var remaining := Poll(if |buffer| == 0 then 0 else 1);
        accepted := Produce(m);
      }
      var remaining := Poll(0);
    }

    /** The row loop: one message per row. */
    method SendRows(staging: map<Key, Row>, rows: seq<Key>)
      requires Valid() && sent == []
      requires forall k :: k in rows ==> k in staging
      modifies this
      ensures Valid() && old(log) <= log
      ensures AnnouncesAll(sent, staging, rows)
    {
      for i := 0 to |rows|
        invariant Valid() && old(log) <= log
        invariant AnnouncesAll(sent, staging, rows[..i])
      {
        assert rows[i] in rows;
        var now: int := *;
        var version := StagedVersion(rows[i], staging[rows[i]]);
        Enqueue(Message(rows[i], BuildEvent(version, now)));
        assert rows[..i + 1] == rows[..i] + [rows[i]];
      }
      assert rows[..|rows|] == rows;
    }
  }

  /**
   * The publish task. On success the topic grew by exactly one message per selected row;
   * on failure it grew by at most that, so a retry repeats messages but invents none.
   */
  method Publish(args: Args, mark: Option<Mark>, staging: map<Key, Row>, cursor: seq<Key>, producer: Producer)
    returns (r: Result<nat, PublishError>, ghost messages: seq<Message>)
    requires producer.Valid() && producer.sent == [] && producer.base == producer.log
    requires ReadBounds(args, mark).Success? ==>
      IsCursor(staging, ReadBounds(args, mark).value.0, ReadBounds(args, mark).value.1, cursor)
    modifies producer
    ensures ReadBounds(args, mark).Failure? ==>
      r == Failure(ReadBounds(args, mark).error) && messages == [] && producer.log == old(producer.log)
    ensures args.start.Some? != args.end.Some? ==> r == Failure(BoundsTogether)
    ensures args.start.None? && args.end.None? ==>
      (r == Failure(MissingCandidate) <==> mark.None? || mark.value.candidate.None?)
    ensures ReadBounds(args, mark).Success? ==>
      && AnnouncesAll(messages, staging, Limited(cursor, args.limit))
      && |messages| == (if args.limit.Some? then Min(args.limit.value, |cursor|) else |cursor|)
      && AnnouncesAll(messages, staging, cursor[..|messages|])
    ensures old(producer.log) <= producer.log
    ensures Beyond(old(producer.log), producer.log) <= multiset(messages)
    ensures r.Success? ==>
      r.value == |messages| && Beyond(old(producer.log), producer.log) == multiset(messages)
  {
    messages := [];
    var bounds := ReadBounds(args, mark);
    if bounds.Failure? {
      return Failure(bounds.error), [];
    }
    var rows := Limited(cursor, args.limit);
    assert rows == cursor[..|rows|];
    assert forall k :: k in rows ==> k in cursor;
    producer.SendRows(staging, rows);
    messages := producer.sent;
    var remaining := producer.Poll(0);
    BalanceAtEnd(producer.ledger, Beyond(producer.base, producer.log));
    if remaining > 0 {
      return Failure(NotDelivered(remaining)), messages;
    }
    if producer.errors > 0 {
      return Failure(DeliveryFailed(producer.errors)), messages;
    }
    return Success(producer.delivered), messages;
  }

  /** The command line the DAG's publish task builds. */
  function TaskArgs(mode: Mode): Args {
    match mode
    case Incremental => Args(None, None, None)
    case Backfill(start, end) => Args(None, Some(start), Some(end))
  }

  /** A publish task that succeeded lets the DAG finish its topic sink: the whole window is in the topic. */
  lemma {:induction false} SuccessDelivers(
      orders: Table, mode: Mode, cursor: seq<Key>, messages: seq<Message>, published: seq<Version>)
    requires ReadBounds(TaskArgs(mode), Some(orders.mark)).Success?
    requires IsCursor(orders.staging, mode, ReadBounds(TaskArgs(mode), Some(orders.mark)).value.1, cursor)
    requires AnnouncesAll(messages, orders.staging, Limited(cursor, TaskArgs(mode).limit))
    requires forall m, v :: m in messages && Announces(m, v) ==> v in published
    ensures Delivered(orders, mode, published)
  {
    hide StagedVersion, Announces;
    var w := ReadBounds(TaskArgs(mode), Some(orders.mark)).value.1;
    forall k | k in orders.staging && InWindow(mode, w, orders.staging[k].updatedAt)
      ensures StagedVersion(k, orders.staging[k]) in published
    {
      assert k in cursor;
      var i :| 0 <= i < |cursor| && cursor[i] == k;
      assert messages[i] in messages;
    }
  }
}
