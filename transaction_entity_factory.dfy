/**
  The projection of an event digest (the summary of every event seen for one
  payment or refund) onto the transaction row that search reads.
*/
module EventModel {
  import opened JavaLang

  /** PAYMENT, REFUND, ...; the enumeration itself is not part of this model. */
  type ResourceType(==)

  /** A timestamp, compared only for equality. */
  type ZonedDateTime(==)

  /** One value of an event payload, as decoded from JSON. */
  type PayloadValue(==)

  /** The typed subset of a payload kept as transaction details. */
  type ConvertedTransactionDetails

  /**
    The transaction columns that only the payload conversion fills (gateway
    account, reference, description, email, card details, ...).
  */
  type PayloadOnlyFields(==)

  type Payload = map<string, PayloadValue>

  datatype EventDigest = EventDigest(
    eventCount: int,
    resourceType: ResourceType,
    resourceExternalId: string,
    parentResourceExternalId: Option<string>,
    eventCreatedDate: ZonedDateTime,
    mostRecentSalientEventType: Option<string>,
    eventPayload: Payload)

  /** A transaction row; every column is a nullable Java field. */
  datatype TransactionEntity = TransactionEntity(
    externalId: Option<string>,
    parentExternalId: Option<string>,
    transactionType: Option<string>,
    state: Option<string>,
    eventCount: Option<int>,
    createdDate: Option<ZonedDateTime>,
    transactionDetails: Option<string>,
    amount: Option<int>,
    otherFields: PayloadOnlyFields)

  /**
    What the factory calls but does not define: its JSON object mapper (two
    conversions, which may throw, and a serialisation, whose failure is `None`),
    the event-type to state lookup `TransactionState.fromEventType(t).getState()`
    and the resource type's `toString()`.
  */
  datatype Collaborators = Collaborators(
    convertToEntity: Payload -> Result<TransactionEntity>,
    convertToDetails: Payload -> Result<ConvertedTransactionDetails>,
    writeValueAsString: ConvertedTransactionDetails -> Option<string>,
    stateFromEventType: Option<string> -> string,
    resourceTypeName: ResourceType -> string)

  /**
    The payload's details, serialised; "{}" when serialisation fails. A failing
    conversion is not caught and propagates.
  */
  function ConvertToTransactionDetails(payload: Payload, c: Collaborators): (r: Result<string>)
    ensures r.Thrown? <==> c.convertToDetails(payload).Thrown?
    ensures r.Thrown? ==> r.exception == c.convertToDetails(payload).exception
  {
    match c.convertToDetails(payload)
    case Thrown(e) => Thrown(e)
    case Returned(details) =>
      match c.writeValueAsString(details)
      case Some(text) => Returned(text)
      case None => Returned("{}")
  }

  /** The seven columns `create` sets from the digest, holding the digest's values. */
  predicate CarriesDigest(e: TransactionEntity, d: EventDigest, c: Collaborators)
  {
    && e.eventCount == Some(d.eventCount)
    && e.state == Some(c.stateFromEventType(d.mostRecentSalientEventType))
    && e.createdDate == Some(d.eventCreatedDate)
    && e.externalId == Some(d.resourceExternalId)
    && e.parentExternalId == d.parentResourceExternalId
    && e.transactionType == Some(c.resourceTypeName(d.resourceType))
  }

  /**
    `create`: the details are computed first, then the payload is converted to
    an entity, and the digest-derived columns are written over whatever the
    conversion put there. Columns the digest does not set keep the payload's values.
  */
  function Create(d: EventDigest, c: Collaborators): (r: Result<TransactionEntity>)
    ensures var details, converted := ConvertToTransactionDetails(d.eventPayload, c), c.convertToEntity(d.eventPayload);
      && (r.Returned? <==> details.Returned? && converted.Returned?)
      && (details.Thrown? ==> r == Thrown(details.exception))
      && (details.Returned? && converted.Thrown? ==> r == Thrown(converted.exception))
      && (r.Returned? ==>
            && CarriesDigest(r.value, d, c)
            && r.value.transactionDetails == Some(details.value)
            && r.value.amount == converted.value.amount
            && r.value.otherFields == converted.value.otherFields)
  {
    match ConvertToTransactionDetails(d.eventPayload, c)
    case Thrown(e) => Thrown(e)
    case Returned(details) =>
      match c.convertToEntity(d.eventPayload)
      case Thrown(e) => Thrown(e)
      case Returned(entity) =>
        Returned(entity.(
          transactionDetails := Some(details),
          eventCount := Some(d.eventCount),
          state := Some(c.stateFromEventType(d.mostRecentSalientEventType)),
          createdDate := Some(d.eventCreatedDate),
          externalId := Some(d.resourceExternalId),
          parentExternalId := d.parentResourceExternalId,
          transactionType := Some(c.resourceTypeName(d.resourceType))))
  }

  /** The details are exactly "{}" when serialisation fails, and otherwise its output. */
  lemma DetailsFallback(payload: Payload, c: Collaborators)
    requires c.convertToDetails(payload).Returned?
    ensures var written := c.writeValueAsString(c.convertToDetails(payload).value);
      && (written.None? ==> ConvertToTransactionDetails(payload, c) == Returned("{}"))
      && (written.Some? ==> ConvertToTransactionDetails(payload, c) == Returned(written.value))
  {
  }

  /**
    Whatever the payload conversion produces, the digest-derived columns of the
    result are the same: replacing the conversion changes none of them.
  */
  lemma DigestOverridesPayload(d: EventDigest, c: Collaborators, otherConversion: Payload -> Result<TransactionEntity>)
    requires Create(d, c).Returned?
    requires otherConversion(d.eventPayload).Returned?
    ensures var r, r' := Create(d, c), Create(d, c.(convertToEntity := otherConversion));
      && r'.Returned?
      && r'.value.externalId == r.value.externalId
      && r'.value.parentExternalId == r.value.parentExternalId
      && r'.value.transactionType == r.value.transactionType
      && r'.value.state == r.value.state
      && r'.value.eventCount == r.value.eventCount
      && r'.value.createdDate == r.value.createdDate
      && r'.value.transactionDetails == r.value.transactionDetails
  {
    var c' := c.(convertToEntity := otherConversion);
    assert ConvertToTransactionDetails(d.eventPayload, c') == ConvertToTransactionDetails(d.eventPayload, c);
  }

  /**
    The state depends on nothing but the most recent salient event type: two
    digests that agree on it get the same state, however else they differ.
  */
  lemma StateOnlyFromSalientEventType(d: EventDigest, d': EventDigest, c: Collaborators)
    requires d.mostRecentSalientEventType == d'.mostRecentSalientEventType
    requires Create(d, c).Returned? && Create(d', c).Returned?
    ensures Create(d, c).value.state == Create(d', c).value.state
  {
  }

  /**
    A refund created by a user, with payload {amount, refunded_by}: when the
    conversions read the amount and keep only `refunded_by` as details, the row
    carries the refund's own id, its parent payment's id, the payload amount,
    the digest's creation date and exactly those details.
  */
  lemma RefundCreatedByUser(d: EventDigest, c: Collaborators, parent: string, amount: int, details: string)
    requires d.eventPayload.Keys == {"amount", "refunded_by"}
    requires d.parentResourceExternalId == Some(parent)
    requires c.convertToEntity(d.eventPayload).Returned?
    requires c.convertToEntity(d.eventPayload).value.amount == Some(amount)
    requires c.convertToDetails(d.eventPayload).Returned?
    requires c.writeValueAsString(c.convertToDetails(d.eventPayload).value) == Some(details)
    ensures Create(d, c).Returned?
    ensures Create(d, c).value.externalId == Some(d.resourceExternalId)
    ensures Create(d, c).value.parentExternalId == Some(parent)
    ensures Create(d, c).value.amount == Some(amount)
    ensures Create(d, c).value.createdDate == Some(d.eventCreatedDate)
    ensures Create(d, c).value.transactionDetails == Some(details)
  {
  }
}
