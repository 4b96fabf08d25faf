/** The sandbox publisher: from an HTTP request body to a message the ingestion worker accepts. */
module Sandbox {
  import opened Results
  import opened Text
  import opened Envelope
  import opened Inbox
  import opened Ingestion
  import opened IngestionTheorems

  /** A JavaScript falsy value, as far as JSON has them. */
  predicate Falsy(v: Json) {
    v.Null? || v == Bool(false) || v == Number(0.0) || v == Str("")
  }

  function Backfilled(body: Json, minted: string): Json {
    if body.Obj? && ("correlationId" !in body.fields || Falsy(body.fields["correlationId"]))
    then Obj(body.fields["correlationId" := Str(minted)])
    else body
  }

  datatype EventEnvelope = EventEnvelope(
    eventId: Option<string>, correlationId: Option<string>,
    tenantId: string, eventType: string, payload: map<string, Json>)

  /** `ValidationPipe` over `CreateEventDto`; None is the 400 response. `eventId` never gets through. */
  function ToDto(body: Json): Option<EventEnvelope> {
    if !body.Obj? then None
    else
      match ParseEnvelope(Obj(body.fields - {"eventId"}))
      case Ok(dto) => Some(EventEnvelope(None, dto.correlationId, dto.tenantId, dto.eventType, dto.payload))
      case Err(_) => None
  }

  function EventId(envelope: EventEnvelope, applicationName: string, minted: string): string {
    if envelope.eventId.Some? then envelope.eventId.value else applicationName + "-" + minted
  }

  /** `JSON.stringify({...envelope, eventId})`, sent without a native message id. */
  function ToMessage(envelope: EventEnvelope, eventId: string): Message {
    var fields := map["tenantId" := Str(envelope.tenantId), "eventType" := Str(envelope.eventType),
                      "payload" := Obj(envelope.payload), "eventId" := Str(eventId)];
    Message(Body(Obj(if envelope.correlationId.Some?
                     then fields["correlationId" := Str(envelope.correlationId.value)] else fields)), None)
  }

  /** A parsed request. A JSON array has no named properties until somebody writes one to it. */
  class HttpRequest {
    var body: Json
    var arrayCorrelationId: Option<string>

    constructor (body: Json)
      ensures this.body == body && arrayCorrelationId == None
    {
      this.body, arrayCorrelationId := body, None;
    }
  }

  class CorrelationIdInterceptor {
    constructor () {}

    /** Rewrites the body in place, object or array, and only a correlation id that is missing, null, false, zero or
        empty. */
    method Intercept(request: HttpRequest, minted: string)
      modifies request
      ensures request.body == Backfilled(old(request.body), minted)
      ensures !old(request.body).Obj? ==> request.body == old(request.body)
      ensures old(request.body).Obj? ==>
                && request.body.Obj?
                && var f := old(request.body).fields;
                && request.body.fields == f["correlationId" :=
                     if "correlationId" in f && f["correlationId"] !in {Null, Bool(false), Number(0.0), Str("")}
                     then f["correlationId"] else Str(minted)]
      ensures request.arrayCorrelationId ==
              if old(request.body).Arr? && old(request.arrayCorrelationId) in {None, Some("")} then Some(minted)
              else old(request.arrayCorrelationId)
    {
      if request.body.Arr? && request.arrayCorrelationId in {None, Some("")} {
        request.arrayCorrelationId := Some(minted);
      }
      if request.body.Obj? {
        var fields := request.body.fields;
        if "correlationId" !in fields || Falsy(fields["correlationId"]) {
          request.body := Obj(fields["correlationId" := Str(minted)]);
        } else {
          assert fields == fields["correlationId" := fields["correlationId"]];
        }
      }
    }
  }

  /** A message with its broker-native properties, which the worker does not read. */
  datatype Queued = Queued(message: Message, contentType: string, correlationId: Option<string>)

  class RabbitMqBrokerPublisherAdapter {
    const applicationName: string
    var queue: seq<Queued>

    constructor (applicationName: string)
      ensures this.applicationName == applicationName && queue == []
    {
      this.applicationName := applicationName;
      queue := [];
    }

    method Publish(envelope: EventEnvelope, minted: string)
      modifies this
      ensures queue == old(queue) + [Queued(ToMessage(envelope, EventId(envelope, applicationName, minted)),
                                            "application/json", envelope.correlationId)]
    {
      var eventId := if envelope.eventId.Some? then envelope.eventId.value else applicationName + "-" + minted;
      queue := queue + [Queued(ToMessage(envelope, eventId), "application/json", envelope.correlationId)];
    }
  }

  /** One accepted request: its body, and the two ids minted while serving it. */
  datatype Request = Request(body: Json, correlationDraw: string, eventDraw: string)

  function Dto(r: Request): Option<EventEnvelope> {
    ToDto(Backfilled(r.body, r.correlationDraw))
  }

  // ---------------------------------------------------------------- what a request asks for, field by field

  /** The caller's own correlation id if it is a non-empty string, the minted one otherwise. */
  function CorrelationText(r: Request): string {
    if r.body.Obj? && "correlationId" in r.body.fields && r.body.fields["correlationId"].Str?
       && r.body.fields["correlationId"].text != ""
    then r.body.fields["correlationId"].text
    else r.correlationDraw
  }

  /** The shape asked of a request. Null, false, zero and the empty string count as no correlation id; anything else
      has to be a UUID. An event id may be there and be anything. */
  predicate ValidRequest(r: Request) {
    && r.body.Obj?
    && var f := r.body.fields;
    && "tenantId" in f && f["tenantId"].Str?
    && "eventType" in f && f["eventType"].Str?
    && "payload" in f && f["payload"].Obj?
    && ("correlationId" in f ==> f["correlationId"].Str? || f["correlationId"] in {Null, Bool(false), Number(0.0)})
    && IsUuid(CorrelationText(r))
  }

  function TenantText(r: Request): string
    requires ValidRequest(r)
  {
    r.body.fields["tenantId"].text
  }

  function EventTypeText(r: Request): string
    requires ValidRequest(r)
  {
    r.body.fields["eventType"].text
  }

  function PayloadOf(r: Request): map<string, Json>
    requires ValidRequest(r)
  {
    r.body.fields["payload"].fields
  }

  /** A supplied correlation id stays, a missing, null, false, zero or empty one becomes the minted one, and no other
      field changes. */
  lemma BackfillRule(fields: map<string, Json>, minted: string)
    ensures Backfilled(Obj(fields), minted).Obj?
    ensures var after := Backfilled(Obj(fields), minted).fields;
            && after.Keys == fields.Keys + {"correlationId"}
            && (forall name | name in fields && name != "correlationId" :: after[name] == fields[name])
            && after["correlationId"] ==
               if "correlationId" in fields && fields["correlationId"] !in {Null, Bool(false), Number(0.0), Str("")}
               then fields["correlationId"] else Str(minted)
  {
  }

  /** Validation after the interceptor lets exactly the valid requests through, with their own fields, a correlation
      id and no event id. */
  lemma RequestAcceptedIff(r: Request)
    ensures Dto(r).Some? <==> ValidRequest(r)
    ensures ValidRequest(r) ==>
              Dto(r) == Some(EventEnvelope(None, Some(CorrelationText(r)), TenantText(r), EventTypeText(r), PayloadOf(r)))
  {
    if r.body.Obj? {
      BackfillRule(r.body.fields, r.correlationDraw);
      var f, after := r.body.fields, Backfilled(r.body, r.correlationDraw).fields;
      var m := Message(Body(Obj(after - {"eventId"})), None);
      ParsedFields(m);
      assert forall name | name in {"tenantId", "eventType", "payload"} ::
          (name in after <==> name in f) && (name in f ==> after[name] == f[name]);
    }
  }

  /** The message a valid request is published as. */
  function Published(r: Request, applicationName: string): Message
    requires ValidRequest(r)
  {
    RequestAcceptedIff(r);
    ToMessage(Dto(r).value, EventId(Dto(r).value, applicationName, r.eventDraw))
  }

  /** An event id the adapter minted is never blank: it has a hyphen in it. */
  lemma MintedIdNotBlank(applicationName: string, minted: string)
    ensures !IsBlank(applicationName + "-" + minted)
  {
    assert (applicationName + "-" + minted)[|applicationName|] == '-';
  }

  /** What goes over the wire: the caller's fields as they came, the two ids, and nothing else. */
  lemma PublishedFields(r: Request, applicationName: string)
    requires ValidRequest(r)
    ensures Published(r, applicationName).messageId == None
    ensures Published(r, applicationName).content == Body(Obj(
              map["tenantId" := r.body.fields["tenantId"], "eventType" := r.body.fields["eventType"],
                  "payload" := r.body.fields["payload"], "correlationId" := Str(CorrelationText(r)),
                  "eventId" := Str(applicationName + "-" + r.eventDraw)]))
  {
    RequestAcceptedIff(r);
    assert Fields(Published(r, applicationName))
        == map["tenantId" := r.body.fields["tenantId"], "eventType" := r.body.fields["eventType"],
               "payload" := r.body.fields["payload"], "correlationId" := Str(CorrelationText(r)),
               "eventId" := Str(applicationName + "-" + r.eventDraw)];
  }

  /** The worker accepts a published request exactly when tenant and event type are not blank, under the
      minted event id, with the request's own tenant, event type and payload, and its own correlation id if it has one. */
  lemma PublishedIsAccepted(r: Request, applicationName: string)
    requires ValidRequest(r)
    ensures Accept(Published(r, applicationName)) ==
              if IsBlank(TenantText(r)) then Err(InvalidIdentifier)
              else if IsBlank(EventTypeText(r)) then Err(InvalidEventType)
              else Ok(Draft(applicationName + "-" + r.eventDraw, Some(CorrelationText(r)), TenantText(r), EventTypeText(r),
                            PayloadOf(r)))
  {
    var m := Published(r, applicationName);
    PublishedFields(r, applicationName);
    UuidNotBlank(CorrelationText(r));
    MintedIdNotBlank(applicationName, r.eventDraw);
    AcceptedIff(m);
    assert TextOf(m, "correlationId") == CorrelationText(r) && TextOf(m, "tenantId") == TenantText(r);
    assert TextOf(m, "eventType") == EventTypeText(r) && KeyText(m) == applicationName + "-" + r.eventDraw;
  }

  /** The requests behind a run: published in order, valid, not blank, minted ids pairwise different. */
  predicate Sent(requests: seq<Request>, applicationName: string, published: seq<Message>) {
    && |published| == |requests|
    && (forall i | 0 <= i < |requests| ::
          && ValidRequest(requests[i])
          && !IsBlank(TenantText(requests[i])) && !IsBlank(EventTypeText(requests[i]))
          && published[i] == Published(requests[i], applicationName))
    && (forall i, j | 0 <= i < j < |requests| :: requests[i].eventDraw != requests[j].eventDraw)
  }

  /** doc is r's record: under r's minted event id, with the tenant, event type and payload of r's body, and r's own
      correlation id, or the minted one if the body has none. */
  predicate Carries(doc: InboxRecord, r: Request, applicationName: string) {
    && ValidRequest(r)
    && doc.dedupKey == applicationName + "-" + r.eventDraw
    && doc.tenantId == TenantText(r) && doc.eventType == EventTypeText(r) && doc.payload == PayloadOf(r)
    && doc.correlationId == CorrelationText(r)
  }

  predicate StoredIn(inbox: seq<InboxRecord>, r: Request, applicationName: string) {
    exists j | 0 <= j < |inbox| :: Carries(inbox[j], r, applicationName)
  }

  predicate SentAs(requests: seq<Request>, doc: InboxRecord, applicationName: string) {
    exists i | 0 <= i < |requests| :: Carries(doc, requests[i], applicationName)
  }

  lemma BuiltFromCarries(doc: InboxRecord, r: Request, applicationName: string)
    requires ValidRequest(r) && BuiltFrom(doc, Published(r, applicationName))
    ensures Carries(doc, r, applicationName)
  {
    PublishedFields(r, applicationName);
    UuidNotBlank(CorrelationText(r));
  }

  lemma SameEventId(applicationName: string, a: string, b: string)
    requires applicationName + "-" + a == applicationName + "-" + b
    ensures a == b
  {
    var n := |applicationName| + 1;
    assert (applicationName + "-" + a)[n..] == a && (applicationName + "-" + b)[n..] == b;
  }

  lemma {:induction false} DistinctCount(keys: seq<string>)
    requires forall i, j | 0 <= i < j < |keys| :: keys[i] != keys[j]
    ensures |set i | 0 <= i < |keys| :: keys[i]| == |keys|
  {
    if keys != [] {
      var front := keys[..|keys| - 1];
      DistinctCount(front);
      assert (set i | 0 <= i < |keys| :: keys[i]) == (set i | 0 <= i < |front| :: front[i]) + {keys[|keys| - 1]};
    }
  }

  function MintedKey(r: Request, applicationName: string): string {
    applicationName + "-" + r.eventDraw
  }

  lemma PublishedKey(r: Request, applicationName: string)
    requires ValidRequest(r) && !IsBlank(TenantText(r)) && !IsBlank(EventTypeText(r))
    ensures KeyOf(Published(r, applicationName)) == Some(MintedKey(r, applicationName))
  {
    PublishedIsAccepted(r, applicationName);
    AcceptedIff(Published(r, applicationName));
  }

  lemma SentKeys(requests: seq<Request>, applicationName: string, published: seq<Message>)
    requires Sent(requests, applicationName, published)
    ensures forall i | 0 <= i < |requests| :: KeyOf(published[i]) == Some(MintedKey(requests[i], applicationName))
    ensures forall i, j | 0 <= i < j < |requests| ::
              MintedKey(requests[i], applicationName) != MintedKey(requests[j], applicationName)
  {
    forall i | 0 <= i < |requests| ensures KeyOf(published[i]) == Some(MintedKey(requests[i], applicationName)) {
      PublishedKey(requests[i], applicationName);
    }
    forall i, j | 0 <= i < j < |requests|
      ensures MintedKey(requests[i], applicationName) != MintedKey(requests[j], applicationName)
    {
      if MintedKey(requests[i], applicationName) == MintedKey(requests[j], applicationName) {
        SameEventId(applicationName, requests[i].eventDraw, requests[j].eventDraw);
      }
    }
  }

  lemma KeyCount(inbox: seq<InboxRecord>)
    requires UniqueKeys(inbox)
    ensures |KeySet(inbox)| == |inbox|
  {
    var stored := seq(|inbox|, j requires 0 <= j < |inbox| => inbox[j].dedupKey);
    DistinctCount(stored);
    forall k ensures k in KeySet(inbox) <==> k in set j | 0 <= j < |stored| :: stored[j] {
      if j :| 0 <= j < |inbox| && inbox[j].dedupKey == k {
        assert stored[j] == k;
      }
    }
    assert (set j | 0 <= j < |stored| :: stored[j]) == KeySet(inbox);
  }

  lemma {:induction false} ResolvedCount(published: seq<Message>, sent: seq<string>)
    requires |published| == |sent| && forall i | 0 <= i < |sent| :: KeyOf(published[i]) == Some(sent[i])
    requires forall i, j | 0 <= i < j < |sent| :: sent[i] != sent[j]
    ensures |ResolvedKeys(published)| == |sent|
  {
    DistinctCount(sent);
    forall k ensures k in ResolvedKeys(published) <==> k in set i | 0 <= i < |sent| :: sent[i] {
      if k in ResolvedKeys(published) {
        var i :| 0 <= i < |published| && KeyOf(published[i]) == Some(k);
        assert sent[i] == k;
      }
      if i :| 0 <= i < |sent| && sent[i] == k {
        assert KeyOf(published[i]) == Some(k);
      }
    }
    assert (set i | 0 <= i < |sent| :: sent[i]) == ResolvedKeys(published);
  }

  lemma {:induction false} OneRecordPerRequest(
      inbox: seq<InboxRecord>, requests: seq<Request>, applicationName: string, published: seq<Message>)
    requires UniqueKeys(inbox) && KeySet(inbox) == ResolvedKeys(published)
    requires |published| == |requests|
    requires forall i | 0 <= i < |requests| :: KeyOf(published[i]) == Some(MintedKey(requests[i], applicationName))
    requires forall i, j | 0 <= i < j < |requests| ::
               MintedKey(requests[i], applicationName) != MintedKey(requests[j], applicationName)
    ensures |inbox| == |requests|
  {
    KeyCount(inbox);
    ResolvedCount(published,
                  seq(|requests|, i requires 0 <= i < |requests| => MintedKey(requests[i], applicationName)));
  }

  lemma RecordBelongsToRequest(s: State, requests: seq<Request>, applicationName: string, j: nat)
    requires InboxOk(s) && j < |s.inbox| && Sent(requests, applicationName, s.published)
    ensures SentAs(requests, s.inbox[j], applicationName)
  {
    assert FromSome(s.published, s.inbox[j]);
    var i :| 0 <= i < |s.published| && BuiltFrom(s.inbox[j], s.published[i]);
    BuiltFromCarries(s.inbox[j], requests[i], applicationName);
  }

  lemma RequestHasRecord(s: State, requests: seq<Request>, applicationName: string, i: nat)
    requires InboxOk(s) && i < |requests| && Sent(requests, applicationName, s.published)
    requires KeySet(s.inbox) == ResolvedKeys(s.published)
    ensures StoredIn(s.inbox, requests[i], applicationName)
  {
    SentKeys(requests, applicationName, s.published);
    var key := MintedKey(requests[i], applicationName);
    assert KeyOf(s.published[i]) == Some(key);
    assert key in KeySet(s.inbox);
    var j :| 0 <= j < |s.inbox| && s.inbox[j].dedupKey == key;
    RecordBelongsToRequest(s, requests, applicationName, j);
    var k :| 0 <= k < |requests| && Carries(s.inbox[j], requests[k], applicationName);
    assert MintedKey(requests[k], applicationName) == key;
    assert k == i;
  }

  /** n publishes, any schedule without repository faults: n records, each request's own, intact. */
  lemma {:induction false} PublishToInbox(steps: seq<Step>, requests: seq<Request>, applicationName: string)
    requires Admissible(INIT, steps) && Settled(Exec(INIT, steps)) && FaultFree(steps)
    requires Sent(requests, applicationName, Exec(INIT, steps).published)
    ensures var inbox := Exec(INIT, steps).inbox;
            && |inbox| == |requests| && UniqueKeys(inbox) && UniqueIds(inbox)
            && (forall i | 0 <= i < |requests| :: StoredIn(inbox, requests[i], applicationName))
            && (forall j | 0 <= j < |inbox| :: SentAs(requests, inbox[j], applicationName))
  {
    var s := Exec(INIT, steps);
    assert InboxOk(s) by { InvRun(INIT, steps); }
    SettledKeys(steps);
    assert |s.inbox| == |requests| by {
      SentKeys(requests, applicationName, s.published);
      OneRecordPerRequest(s.inbox, requests, applicationName, s.published);
    }
    forall j | 0 <= j < |s.inbox| ensures SentAs(requests, s.inbox[j], applicationName) {
      RecordBelongsToRequest(s, requests, applicationName, j);
    }
    forall i | 0 <= i < |requests| ensures StoredIn(s.inbox, requests[i], applicationName) {
      RequestHasRecord(s, requests, applicationName, i);
    }
  }
}
