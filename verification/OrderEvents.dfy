/**
 * The order event: how the publisher builds it and how the stream parses, validates and
 * routes it. Validity is a SQL condition, so it has three truth values.
 */
module OrderEvents {
  import opened Prelude

  type OrderId = string

  /** UUIDv5 of `order_id:updated_at`, as the injective function it stands for, or a foreign id. */
  datatype EventId = Uuid5(orderId: OrderId, updatedAt: int) | Foreign(text: string)

  /** The business columns an event carries besides its key and version, in their text form. */
  datatype Payload = Payload(
    customerId: Option<string>, status: Option<string>, totalAmount: Option<string>, orderDate: Option<string>)

  /** The `data` object of the JSON envelope. */
  datatype Data = Data(orderId: Option<OrderId>, sourceUpdatedAt: Option<int>, payload: Payload)

  /** The decoded envelope; absent JSON members are `None`. */
  datatype Envelope = Envelope(
    eventId: Option<EventId>, eventType: Option<string>, schemaVersion: Option<int>,
    occurredAt: Option<string>, producedAt: Option<int>, data: Option<Data>)

  datatype Coord = Coord(topic: string, partition: nat, offset: nat)

  /** A Kafka record; the envelope is `None` when the value is not JSON of the expected shape. */
  datatype KafkaRow = KafkaRow(coord: Coord, messageKey: string, rawValue: string, envelope: Option<Envelope>)

  /** The columns parse_kafka_events selects. */
  datatype Parsed = Parsed(
    coord: Coord, messageKey: string, rawValue: string,
    eventId: Option<EventId>, eventType: Option<string>, schemaVersion: Option<int>,
    occurredAt: Option<string>, producedAt: Option<int>,
    orderId: Option<OrderId>, sourceUpdatedAt: Option<int>, payload: Payload)

  const NO_PAYLOAD := Payload(None, None, None, None)

  /** Field access on a NULL struct is NULL. */
  function ParseKafkaEvent(row: KafkaRow): Parsed {
    match row.envelope
    case None =>
      Parsed(row.coord, row.messageKey, row.rawValue, None, None, None, None, None, None, None, NO_PAYLOAD)
    case Some(e) =>
      var orderId := if e.data.Some? then e.data.value.orderId else None;
      var version := if e.data.Some? then e.data.value.sourceUpdatedAt else None;
      var payload := if e.data.Some? then e.data.value.payload else NO_PAYLOAD;
      Parsed(row.coord, row.messageKey, row.rawValue,
             e.eventId, e.eventType, e.schemaVersion, e.occurredAt, e.producedAt, orderId, version, payload)
  }

  // ----- Three-valued logic (ISO/IEC 9075-2, boolean value expressions) -----

  datatype Truth = True | False | Unknown

  function Of(b: bool): Truth { if b then True else False }

  function And(a: Truth, b: Truth): Truth {
    if a == False || b == False then False
    else if a == Unknown || b == Unknown then Unknown
    else True
  }

  function Not(a: Truth): Truth {
    match a
    case True => False
    case False => True
    case Unknown => Unknown
  }

  /** `column = literal` is unknown for a NULL column. */
  function Equals<T(==)>(column: Option<T>, literal: T): Truth {
    if column.None? then Unknown else Of(column.value == literal)
  }

  function IsNotNull<T>(column: Option<T>): Truth { Of(column.Some?) }

  /** The is_valid column. */
  function IsValid(p: Parsed): Truth {
    And(And(And(And(
      IsNotNull(p.eventId),
      Equals(p.eventType, "order.upserted")),
      Equals(p.schemaVersion, 1)),
      IsNotNull(p.orderId)),
      IsNotNull(p.sourceUpdatedAt))
  }

  /** batch.filter("is_valid"): a filter keeps rows whose condition is true, not unknown. */
  predicate ToHistory(p: Parsed) { IsValid(p) == True }

  /** batch.filter("NOT is_valid") */
  predicate ToDeadLetters(p: Parsed) { Not(IsValid(p)) == True }

  /** No condition of the validity rule is violated, though some may be unknown. */
  predicate NothingViolated(p: Parsed) {
    && p.eventId.Some? && p.orderId.Some? && p.sourceUpdatedAt.Some?
    && (p.eventType.Some? ==> p.eventType.value == "order.upserted")
    && (p.schemaVersion.Some? ==> p.schemaVersion.value == 1)
  }

  /**
   * A record reaches at most one of the two sinks, and it reaches neither exactly when
   * nothing is violated and its event type or schema version is NULL.
   */
  lemma {:induction false} Routing(p: Parsed)
    ensures !(ToHistory(p) && ToDeadLetters(p))
    ensures ToHistory(p) <==> NothingViolated(p) && p.eventType.Some? && p.schemaVersion.Some?
    ensures !ToHistory(p) && !ToDeadLetters(p) <==>
      NothingViolated(p) && (p.eventType.None? || p.schemaVersion.None?)
  {
  }

  /** An event without a type is dropped by both sinks, against the stated rule that unsupported events are kept. */
  lemma {:induction false} UntypedEventIsDropped(coord: Coord, orderId: OrderId, version: int)
    ensures
      var data := Data(Some(orderId), Some(version), NO_PAYLOAD);
      var row := KafkaRow(coord, orderId, "", Some(Envelope(Some(Uuid5(orderId, version)), None, Some(1), None, None, Some(data))));
      !ToHistory(ParseKafkaEvent(row)) && !ToDeadLetters(ParseKafkaEvent(row))
  {
  }

  // ----- What the publisher builds -----

  /** One business version of an order. */
  datatype Version = Version(orderId: OrderId, updatedAt: int, payload: Payload)

  /** The envelope the publisher serializes for a staging row. */
  function BuildEvent(v: Version, producedAt: int): Envelope {
    Envelope(Some(Uuid5(v.orderId, v.updatedAt)), Some("order.upserted"), Some(1),
             v.payload.orderDate, Some(producedAt),
             Some(Data(Some(v.orderId), Some(v.updatedAt), v.payload)))
  }

  /** The version a valid record speaks about. */
  function VersionOf(p: Parsed): Version
    requires ToHistory(p)
  {
    Version(p.orderId.value, p.sourceUpdatedAt.value, p.payload)
  }

  /** `row` was produced by the publisher for version `v`. */
  ghost predicate Publishes(row: KafkaRow, v: Version) {
    row.envelope.Some? && exists t :: row.envelope.value == BuildEvent(v, t)
  }

  /** Every published event is routed to history, and parsing gives the version back. */
  lemma {:induction false} PublishedReachesHistory(row: KafkaRow, v: Version)
    requires Publishes(row, v)
    ensures ToHistory(ParseKafkaEvent(row))
    ensures VersionOf(ParseKafkaEvent(row)) == v
    ensures ParseKafkaEvent(row).eventId == Some(Uuid5(v.orderId, v.updatedAt))
  {
  }
}
