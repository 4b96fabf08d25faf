/**
 * What the worker makes of one broker message before it touches the database: JSON body, envelope
 * validation, dedup-key and correlation-id resolution, and the inbox record built from them.
 */
module Envelope {
  import opened Results
  import opened Text

  datatype Json =
    | Null
    | Bool(b: bool)
    | Number(n: real)
    | Str(text: string)
    | Arr(items: seq<Json>)
    | Obj(fields: map<string, Json>)

  /** The bytes of a message: JSON or not, and the broker's native message id if it has one. */
  datatype Content = Malformed | Body(json: Json)
  datatype Message = Message(content: Content, messageId: Option<string>)

  datatype IngestError =
    | InvalidJson
    | InvalidEnvelope
    | UnresolvableDedupKey
    | InvalidIdentifier
    | InvalidEventType

  datatype EnvelopeDto = EnvelopeDto(
    eventId: Option<string>, correlationId: Option<string>,
    tenantId: string, eventType: string, payload: map<string, Json>)

  /** `@IsOptional() @IsString()`: a missing or null field is skipped, any other non-string refused. */
  function OptionalString(fields: map<string, Json>, name: string): Result<Option<string>, IngestError> {
    if name !in fields || fields[name].Null? then Ok(None)
    else if fields[name].Str? then Ok(Some(fields[name].text))
    else Err(InvalidEnvelope)
  }

  /** `@IsString()` */
  function RequiredString(fields: map<string, Json>, name: string): Result<string, IngestError> {
    if name in fields && fields[name].Str? then Ok(fields[name].text) else Err(InvalidEnvelope)
  }

  function ParseEnvelope(body: Json): Result<EnvelopeDto, IngestError> {
    var _ :- Need(body.Obj?, InvalidEnvelope);
    var eventId :- OptionalString(body.fields, "eventId");
    var correlationId :- OptionalString(body.fields, "correlationId");
    var _ :- Need(correlationId.Some? ==> IsUuid(correlationId.value), InvalidEnvelope);
    var tenantId :- RequiredString(body.fields, "tenantId");
    var eventType :- RequiredString(body.fields, "eventType");
    var _ :- Need("payload" in body.fields && body.fields["payload"].Obj?, InvalidEnvelope);
    Ok(EnvelopeDto(eventId, correlationId, tenantId, eventType, body.fields["payload"].fields))
  }

  function ResolveDedupKey(eventId: Option<string>, messageId: Option<string>): Result<string, IngestError> {
    if eventId.Some? && eventId.value != "" then NonBlank(eventId.value, InvalidIdentifier)
    else if messageId.Some? && messageId.value != "" then NonBlank(messageId.value, InvalidIdentifier)
    else Err(UnresolvableDedupKey)
  }

  /** None when the caller must generate a fallback. */
  function ResolveCorrelationId(correlationId: Option<string>): Result<Option<string>, IngestError> {
    if correlationId.Some? && correlationId.value != "" then
      var id :- NonBlank(correlationId.value, InvalidIdentifier);
      Ok(Some(id))
    else
      Ok(None)
  }

  /** Everything about the record that the message itself decides. */
  datatype Draft = Draft(
    dedupKey: string, correlationId: Option<string>, tenantId: string, eventType: string, payload: map<string, Json>)

  /** The synchronous part of handling a message, up to the first `await`. */
  function Accept(m: Message): Result<Draft, IngestError> {
    var _ :- Need(m.content.Body?, InvalidJson);
    var dto :- ParseEnvelope(m.content.json);
    var dedupKey :- ResolveDedupKey(dto.eventId, m.messageId);
    var correlationId :- ResolveCorrelationId(dto.correlationId);
    var tenantId :- NonBlank(dto.tenantId, InvalidIdentifier);
    var _ :- Need(!IsBlank(dto.eventType), InvalidEventType);
    Ok(Draft(dedupKey, correlationId, tenantId, dto.eventType, dto.payload))
  }

  /** What one delivery draws from outside: a fresh record id, a fallback correlation id, the clock. */
  datatype Draw = Draw(recordId: string, correlationId: string, now: int)

  datatype InboxStatus = Ingested

  datatype InboxRecord = InboxRecord(
    id: string, dedupKey: string, tenantId: string, correlationId: string, eventType: string,
    payload: map<string, Json>, receivedAt: int, status: InboxStatus)

  /** `InboxRecord.ingest` */
  function Ingest(draft: Draft, draw: Draw): InboxRecord {
    InboxRecord(draw.recordId, draft.dedupKey, draft.tenantId,
                if draft.correlationId.Some? then draft.correlationId.value else draw.correlationId,
                draft.eventType, draft.payload, draw.now, Ingested)
  }

  // ---------------------------------------------------------------- what a message means, field by field

  function Fields(m: Message): map<string, Json> {
    if m.content.Body? && m.content.json.Obj? then m.content.json.fields else map[]
  }

  /** The text of a field that is a string; nothing otherwise. */
  function TextOf(m: Message, name: string): string {
    if name in Fields(m) && Fields(m)[name].Str? then Fields(m)[name].text else ""
  }

  /** The event id if it is a non-empty string, the broker's own message id otherwise. */
  function KeyText(m: Message): string {
    if TextOf(m, "eventId") != "" then TextOf(m, "eventId")
    else if m.messageId.Some? then m.messageId.value
    else ""
  }

  /** The shape asked of an envelope: each field of its type, an id that must be a UUID being one. */
  predicate WellShaped(m: Message) {
    && m.content.Body? && m.content.json.Obj?
    && var f := m.content.json.fields;
    && "tenantId" in f && f["tenantId"].Str?
    && "eventType" in f && f["eventType"].Str?
    && "payload" in f && f["payload"].Obj?
    && ("eventId" in f ==> f["eventId"].Null? || f["eventId"].Str?)
    && ("correlationId" in f ==> f["correlationId"].Null? || (f["correlationId"].Str? && IsUuid(f["correlationId"].text)))
  }

  /** A well-shaped envelope with a usable key, tenant and event type. */
  predicate ValidMessage(m: Message) {
    && WellShaped(m)
    && !IsBlank(KeyText(m)) && !IsBlank(TextOf(m, "tenantId")) && !IsBlank(TextOf(m, "eventType"))
  }

  /** The first thing wrong with an invalid message. */
  function Rejection(m: Message): IngestError {
    if m.content.Malformed? then InvalidJson
    else if !WellShaped(m) then InvalidEnvelope
    else if KeyText(m) == "" then UnresolvableDedupKey
    else if IsBlank(KeyText(m)) || IsBlank(TextOf(m, "tenantId")) then InvalidIdentifier
    else InvalidEventType
  }

  /** r carries what the message says, and what this delivery drew where the message says nothing. */
  predicate MadeFrom(r: InboxRecord, m: Message, draw: Draw) {
    && ValidMessage(m)
    && r.id == draw.recordId && r.receivedAt == draw.now && r.status == Ingested
    && r.dedupKey == KeyText(m)
    && r.tenantId == TextOf(m, "tenantId") && r.eventType == TextOf(m, "eventType")
    && r.payload == Fields(m)["payload"].fields
    && r.correlationId == (if TextOf(m, "correlationId") != "" then TextOf(m, "correlationId") else draw.correlationId)
  }

  /** r is a record some delivery of m could have built, whatever it drew. */
  predicate BuiltFrom(r: InboxRecord, m: Message) {
    MadeFrom(r, m, Draw(r.id, r.correlationId, r.receivedAt))
  }

  function KeyOf(m: Message): Option<string> {
    if ValidMessage(m) then Some(KeyText(m)) else None
  }

  /** The envelope's event id wins, an empty one falls back to the broker id, a blank one never does. */
  lemma DedupKeyRule(eventId: Option<string>, messageId: Option<string>, key: string)
    ensures ResolveDedupKey(eventId, messageId) == Ok(key) <==>
            !IsBlank(key) && (eventId == Some(key) || (eventId in {None, Some("")} && messageId == Some(key)))
  {
  }

  lemma ParsedFields(m: Message)
    requires m.content.Body?
    ensures ParseEnvelope(m.content.json).Ok? <==> WellShaped(m)
    ensures WellShaped(m) ==>
              var dto := ParseEnvelope(m.content.json).value;
              && (if dto.eventId.Some? then dto.eventId.value else "") == TextOf(m, "eventId")
              && (if dto.correlationId.Some? then dto.correlationId.value else "") == TextOf(m, "correlationId")
              && (dto.correlationId.Some? ==> IsUuid(dto.correlationId.value))
              && dto.tenantId == TextOf(m, "tenantId") && dto.eventType == TextOf(m, "eventType")
              && dto.payload == Fields(m)["payload"].fields
    ensures !WellShaped(m) ==> ParseEnvelope(m.content.json) == Err(InvalidEnvelope)
  {
  }

  lemma ResolvedKey(m: Message, eventId: Option<string>)
    requires (if eventId.Some? then eventId.value else "") == TextOf(m, "eventId")
    ensures ResolveDedupKey(eventId, m.messageId)
            == if KeyText(m) == "" then Err(UnresolvableDedupKey)
               else if IsBlank(KeyText(m)) then Err(InvalidIdentifier)
               else Ok(KeyText(m))
  {
  }

  /** A message is accepted exactly when it is valid, and refused for the first thing wrong with it. An accepted one is
      known by its event id or else the broker's id, and carries its own fields. */
  lemma AcceptedIff(m: Message)
    ensures Accept(m).Ok? <==> ValidMessage(m)
    ensures !ValidMessage(m) ==> Accept(m) == Err(Rejection(m))
    ensures ValidMessage(m) ==>
              var draft := Accept(m).value;
              && draft.dedupKey == KeyText(m)
              && draft.tenantId == TextOf(m, "tenantId") && draft.eventType == TextOf(m, "eventType")
              && draft.payload == Fields(m)["payload"].fields
              && draft.correlationId == (if TextOf(m, "correlationId") != "" then Some(TextOf(m, "correlationId")) else None)
  {
    if m.content.Body? {
      ParsedFields(m);
      if WellShaped(m) {
        var dto := ParseEnvelope(m.content.json).value;
        ResolvedKey(m, dto.eventId);
        if dto.correlationId.Some? {
          UuidNotBlank(dto.correlationId.value);
        }
      }
    }
  }

  /** The record a delivery builds. */
  lemma IngestedFields(m: Message, draw: Draw)
    requires Accept(m).Ok?
    ensures MadeFrom(Ingest(Accept(m).value, draw), m, draw) && BuiltFrom(Ingest(Accept(m).value, draw), m)
  {
    AcceptedIff(m);
  }
}
