/**
 * The subscription collection and the three writing use cases on it: as functions from a store and a
 * request, and as the imperative code that performs them on repository, aggregate and publisher.
 */
module UseCases {
  import opened Results
  import opened Text
  import opened TargetUrl
  import opened UrlAcceptance
  import opened Subscription

  datatype SubscriptionRecord = SubscriptionRecord(
    id: string, tenantId: string, createdByClientId: string, createdByUserId: Option<string>,
    targetUrl: string, subscribedEventTypes: seq<string>, status: Status, createdAt: int, updatedAt: int)

  /** The collection, keyed by `_id`. */
  type Store = map<string, SubscriptionRecord>

  datatype UseCaseError = Domain(error: DomainError) | NotFound | DuplicateSubscription | IndexConflict

  // ---------------------------------------------------------------- value objects and mapping

  function OptionalIdentifier(s: Option<string>): Result<Option<string>, DomainError> {
    if s.Some? && IsBlank(s.value) then Err(InvalidIdentifier) else Ok(s)
  }

  function SubscriptionId(s: string): Result<string, DomainError> {
    if IsUuid(s) then Ok(s) else Err(InvalidIdentifier)
  }

  predicate NoneBlank(types: seq<string>) {
    forall i | 0 <= i < |types| :: !IsBlank(types[i])
  }

  function EventTypes(types: seq<string>): Result<seq<string>, DomainError> {
    if NoneBlank(types) then Ok(types) else Err(InvalidEventType)
  }

  function Url(parse: UrlParser, value: string): Result<string, DomainError> {
    match FromString(parse, value)
    case Ok(url) => Ok(url)
    case Err(code) => Err(InvalidTargetUrl(code))
  }

  function ToDocument(a: Aggregate): SubscriptionRecord {
    SubscriptionRecord(a.id, a.tenantId, a.createdByClientId, a.createdByUserId, a.targetUrl, a.eventTypes, a.status,
                       a.createdAt, a.updatedAt)
  }

  /** `restore` of the validated fields: a stored value that no longer validates makes the read fail. */
  function ToAggregate(parse: UrlParser, r: SubscriptionRecord): Result<Aggregate, DomainError> {
    var id :- SubscriptionId(r.id);
    var tenantId :- NonBlank(r.tenantId, InvalidIdentifier);
    var clientId :- NonBlank(r.createdByClientId, InvalidIdentifier);
    var userId :- OptionalIdentifier(r.createdByUserId);
    var url :- Url(parse, r.targetUrl);
    var types :- EventTypes(r.subscribedEventTypes);
    Ok(Aggregate(id, tenantId, clientId, userId, url, types, r.status, r.createdAt, r.updatedAt, []))
  }

  // ---------------------------------------------------------------- repository

  predicate MatchesUrl(r: SubscriptionRecord, tenantId: string, url: string) {
    r.tenantId == tenantId && r.targetUrl == url
  }

  predicate UrlTaken(docs: Store, tenantId: string, url: string) {
    exists id | id in docs :: MatchesUrl(docs[id], tenantId, url)
  }

  /** The unique (tenantId, targetUrl) index would refuse r: another document, deleted or not, has the pair. */
  predicate Clash(docs: Store, r: SubscriptionRecord) {
    exists id | id in docs && id != r.id :: MatchesUrl(docs[id], r.tenantId, r.targetUrl)
  }

  function FindById(docs: Store, id: string, tenantId: string): Option<SubscriptionRecord> {
    if id in docs && docs[id].tenantId == tenantId then Some(docs[id]) else None
  }

  class SubscriptionMongoRepository {
    var docs: Store

    constructor ()
      ensures docs == map[]
    {
      docs := map[];
    }

    /** Replaces the whole record under its id, whatever is stored there, if the index allows it. */
    method Save(a: Aggregate) returns (result: Result<(), UseCaseError>)
      modifies this
      ensures if Clash(old(docs), ToDocument(a)) then result == Err(IndexConflict) && docs == old(docs)
              else result == Ok(()) && docs == old(docs)[a.id := ToDocument(a)]
    {
      var record := ToDocument(a);
      if Clash(docs, record) {
        return Err(IndexConflict);
      }
      docs := docs[record.id := record];
      return Ok(());
    }

    method FindOneByIdAndTenant(id: string, tenantId: string) returns (record: Option<SubscriptionRecord>)
      ensures record == FindById(docs, id, tenantId)
    {
      if id in docs && docs[id].tenantId == tenantId {
        return Some(docs[id]);
      }
      return None;
    }

    /** Scans the collection; None exactly when no document of the tenant has the URL. */
    method FindOneByTenantAndTargetUrl(tenantId: string, url: string) returns (record: Option<SubscriptionRecord>)
      ensures record.None? <==> !UrlTaken(docs, tenantId, url)
      ensures record.Some? ==> record.value in docs.Values && MatchesUrl(record.value, tenantId, url)
    {
      var ids := docs.Keys;
      while ids != {}
        invariant ids <= docs.Keys
        invariant forall id | id in docs && id !in ids :: !MatchesUrl(docs[id], tenantId, url)
        decreases |ids|
      {
        var id :| id in ids;
        if MatchesUrl(docs[id], tenantId, url) {
          return Some(docs[id]);
        }
        ids := ids - {id};
      }
      return None;
    }
  }

  class DomainEventPublisher {
    var published: seq<DomainEvent>

    constructor ()
      ensures published == []
    {
      published := [];
    }

    method PublishAll(events: seq<DomainEvent>)
      modifies this
      ensures published == old(published) + events
    {
      published := published + events;
    }
  }

  // ---------------------------------------------------------------- requests as functions

  /** A request with what its use case draws: an id for a new subscription, and the clock at each reading. */
  datatype Request =
    | CreateRequest(tenantId: string, clientId: string, userId: Option<string>, targetUrl: string,
                    eventTypes: seq<string>, freshId: string, now: int)
    | UpdateRequest(id: string, tenantId: string, newUrl: Option<string>, newTypes: Option<seq<string>>,
                    newStatus: Option<Status>, urlNow: int, typesNow: int, statusNow: int)
    | DeleteRequest(id: string, tenantId: string, now: int)

  /** The record a request can write. */
  function Target(req: Request): string {
    if req.CreateRequest? then req.freshId else req.id
  }

  function Lift<T>(r: Result<T, DomainError>): Result<T, UseCaseError> {
    match r
    case Ok(v) => Ok(v)
    case Err(e) => Err(Domain(e))
  }

  /** What a new subscription is made of, once its URL has been accepted as url. */
  function NewAggregate(req: Request, url: string): Result<Aggregate, DomainError>
    requires req.CreateRequest?
  {
    var clientId :- NonBlank(req.clientId, InvalidIdentifier);
    var userId :- OptionalIdentifier(req.userId);
    var types :- EventTypes(req.eventTypes);
    Create(req.freshId, req.tenantId, clientId, userId, url, types, req.now)
  }

  function Load(parse: UrlParser, docs: Store, id: string, tenantId: string): Result<Aggregate, UseCaseError> {
    var sid :- Lift(SubscriptionId(id));
    var tid :- Lift(NonBlank(tenantId, InvalidIdentifier));
    match FindById(docs, sid, tid)
    case None => Err(NotFound)
    case Some(record) => Lift(ToAggregate(parse, record))
  }

  function WithUrl(parse: UrlParser, a: Aggregate, req: Request): Result<Aggregate, DomainError>
    requires req.UpdateRequest?
  {
    if req.newUrl.None? then Ok(a)
    else
      var url :- Url(parse, req.newUrl.value);
      a.UpdateTargetUrl(url, req.urlNow)
  }

  function WithTypes(a: Aggregate, req: Request): Result<Aggregate, DomainError>
    requires req.UpdateRequest?
  {
    if req.newTypes.None? then Ok(a)
    else
      var types :- EventTypes(req.newTypes.value);
      a.UpdateEventTypes(types, req.typesNow)
  }

  /** `applyStatus` */
  function SetStatus(a: Aggregate, status: Status, now: int): Result<Aggregate, DomainError> {
    match status
    case Active => a.Resume(now)
    case Paused => a.Pause(now)
    case Deleted => Err(InvalidStatusTransition)
  }

  function WithStatus(a: Aggregate, req: Request): Result<Aggregate, DomainError>
    requires req.UpdateRequest?
  {
    if req.newStatus.None? then Ok(a) else SetStatus(a, req.newStatus.value, req.statusNow)
  }

  /** The three optional changes of a patch, in order. */
  function Patch(parse: UrlParser, a: Aggregate, req: Request): Result<Aggregate, DomainError>
    requires req.UpdateRequest?
  {
    var b :- WithUrl(parse, a, req);
    var c :- WithTypes(b, req);
    WithStatus(c, req)
  }

  /** A duplicate found by the check is restored before it is reported, so an unreadable one fails the read. */
  ghost function DuplicateError(parse: UrlParser, docs: Store, tenantId: string, url: string): UseCaseError
    requires UrlTaken(docs, tenantId, url)
  {
    var id :| id in docs && MatchesUrl(docs[id], tenantId, url);
    match ToAggregate(parse, docs[id])
    case Ok(_) => DuplicateSubscription
    case Err(e) => Domain(e)
  }

  /** Everything a use case does before it saves: the aggregate to save, or the error. */
  ghost function Prepare(parse: UrlParser, docs: Store, req: Request): Result<Aggregate, UseCaseError> {
    match req
    case CreateRequest(tenantId, _, _, targetUrl, _, _, _) => (
      var _ :- Lift(NonBlank(tenantId, InvalidIdentifier));
      var url :- Lift(Url(parse, targetUrl));
      if UrlTaken(docs, tenantId, url) then Err(DuplicateError(parse, docs, tenantId, url))
      else Lift(NewAggregate(req, url)))
    case UpdateRequest(id, tenantId, _, _, _, _, _, _) => (
      var a :- Load(parse, docs, id, tenantId);
      Lift(Patch(parse, a, req)))
    case DeleteRequest(id, tenantId, now) => (
      var a :- Load(parse, docs, id, tenantId);
      Ok(a.Delete(now)))
  }

  /** What a request leaves behind: the store, the events published, and the result handed back. */
  datatype Served = Served(docs: Store, events: seq<DomainEvent>, result: Result<Aggregate, UseCaseError>)

  function Commit(docs: Store, a: Aggregate): Served {
    if Clash(docs, ToDocument(a)) then Served(docs, [], Err(IndexConflict))
    else Served(docs[a.id := ToDocument(a)], a.domainEvents, Ok(a.Drained()))
  }

  ghost function Serve(parse: UrlParser, docs: Store, req: Request): Served {
    match Prepare(parse, docs, req)
    case Err(e) => Served(docs, [], Err(e))
    case Ok(a) => Commit(docs, a)
  }

  lemma StatusKeepsUrl(a: Aggregate, req: Request)
    requires req.UpdateRequest?
    ensures WithTypes(a, req).Ok? ==> WithTypes(a, req).value.targetUrl == a.targetUrl
    ensures WithStatus(a, req).Ok? ==> WithStatus(a, req).value.targetUrl == a.targetUrl
  {
  }

  /** A patch that names a URL succeeds only if it is safe, and leaves its normal form. */
  lemma UpdatedUrl(parse: UrlParser, docs: Store, req: Request)
    requires req.UpdateRequest? && req.newUrl.Some?
    ensures var served := Serve(parse, docs, req);
            served.result.Ok? ==> && SafeTarget(parse, req.newUrl.value)
                                  && served.result.value.targetUrl == parse(req.newUrl.value).value.href
  {
    UrlIsAcceptedIff(parse, req.newUrl.value);
    var loaded := Load(parse, docs, req.id, req.tenantId);
    if loaded.Ok? && WithUrl(parse, loaded.value, req).Ok? {
      var b := WithUrl(parse, loaded.value, req).value;
      StatusKeepsUrl(b, req);
      if WithTypes(b, req).Ok? {
        StatusKeepsUrl(WithTypes(b, req).value, req);
      }
    }
  }

  // ---------------------------------------------------------------- the use cases as code

  class SubscriptionUseCases {
    const repository: SubscriptionMongoRepository
    const publisher: DomainEventPublisher
    const parse: UrlParser

    constructor (repository: SubscriptionMongoRepository, publisher: DomainEventPublisher, parse: UrlParser)
      ensures this.repository == repository && this.publisher == publisher && this.parse == parse
    {
      this.repository, this.publisher, this.parse := repository, publisher, parse;
    }

    /** Save, drain, publish: events leave only after the record is stored. */
    method SaveAndPublish(subscription: WebhookSubscription) returns (result: Result<Aggregate, UseCaseError>)
      modifies repository, publisher, subscription
      ensures var served := Commit(old(repository.docs), old(subscription.Value()));
              && repository.docs == served.docs
              && publisher.published == old(publisher.published) + served.events
              && result == served.result
    {
      var saved := repository.Save(subscription.Value());
      if saved.Err? {
        return Err(saved.error);
      }
      var events := subscription.PullDomainEvents();
      publisher.PublishAll(events);
      return Ok(subscription.Value());
    }

    method FindSubscription(id: string, tenantId: string) returns (result: Result<Aggregate, UseCaseError>)
      ensures result == Load(parse, repository.docs, id, tenantId)
    {
      var sid := SubscriptionId(id);
      if sid.Err? { return Err(Domain(sid.error)); }
      var tid := NonBlank(tenantId, InvalidIdentifier);
      if tid.Err? { return Err(Domain(tid.error)); }
      var record := repository.FindOneByIdAndTenant(sid.value, tid.value);
      if record.None? { return Err(NotFound); }
      return Lift(ToAggregate(parse, record.value));
    }

    method CreateSubscription(req: Request) returns (result: Result<Aggregate, UseCaseError>)
      requires req.CreateRequest? && UniqueUrls(repository.docs)
      modifies repository, publisher
      ensures var served := Serve(parse, old(repository.docs), req);
              && repository.docs == served.docs
              && publisher.published == old(publisher.published) + served.events
              && result == served.result
      ensures result.Ok? ==> SafeTarget(parse, req.targetUrl) && result.value.targetUrl == parse(req.targetUrl).value.href
    {
      var tenantId := NonBlank(req.tenantId, InvalidIdentifier);
      if tenantId.Err? { return Err(Domain(tenantId.error)); }
      var url := Url(parse, req.targetUrl);
      UrlIsAcceptedIff(parse, req.targetUrl);
      if url.Err? { return Err(Domain(url.error)); }
      var existing := repository.FindOneByTenantAndTargetUrl(req.tenantId, url.value);
      if existing.Some? {
        var restored := ToAggregate(parse, existing.value);
        return if restored.Err? then Err(Domain(restored.error)) else Err(DuplicateSubscription);
      }
      var created := NewAggregate(req, url.value);
      if created.Err? { return Err(Domain(created.error)); }
      var subscription := new WebhookSubscription(created.value);
      subscription.Record(SubscriptionCreated, req.now);
      result := SaveAndPublish(subscription);
    }

    method ApplyStatus(subscription: WebhookSubscription, status: Status, now: int) returns (changed: Result<(), DomainError>)
      modifies subscription
      ensures match SetStatus(old(subscription.Value()), status, now)
              case Ok(after) => changed == Ok(()) && subscription.Value() == after
              case Err(e) => changed == Err(e) && subscription.Value() == old(subscription.Value())
    {
      match status {
        case Active => changed := subscription.Resume(now);
        case Paused => changed := subscription.Pause(now);
        case Deleted => changed := Err(InvalidStatusTransition);
      }
    }

    method UpdateSubscription(req: Request) returns (result: Result<Aggregate, UseCaseError>)
      requires req.UpdateRequest?
      modifies repository, publisher
      ensures var served := Serve(parse, old(repository.docs), req);
              && repository.docs == served.docs
              && publisher.published == old(publisher.published) + served.events
              && result == served.result
      ensures result.Ok? && req.newUrl.Some? ==>
                SafeTarget(parse, req.newUrl.value) && result.value.targetUrl == parse(req.newUrl.value).value.href
    {
      if req.newUrl.Some? { UpdatedUrl(parse, repository.docs, req); }
      var found := FindSubscription(req.id, req.tenantId);
      if found.Err? { return Err(found.error); }
      var subscription := new WebhookSubscription(found.value);
      if req.newUrl.Some? {
        var url := Url(parse, req.newUrl.value);
        if url.Err? { return Err(Domain(url.error)); }
        var changed := subscription.UpdateTargetUrl(url.value, req.urlNow);
        if changed.Err? { return Err(Domain(changed.error)); }
      }
      ghost var b := WithUrl(parse, found.value, req).value;
      assert WithUrl(parse, found.value, req) == Ok(b) && subscription.Value() == b;
      if req.newTypes.Some? {
        var types := EventTypes(req.newTypes.value);
        if types.Err? { return Err(Domain(types.error)); }
        var changed := subscription.UpdateSubscribedEventTypes(types.value, req.typesNow);
        if changed.Err? { return Err(Domain(changed.error)); }
      }
      ghost var c := WithTypes(b, req).value;
      assert WithTypes(b, req) == Ok(c) && subscription.Value() == c;
      if req.newStatus.Some? {
        var changed := ApplyStatus(subscription, req.newStatus.value, req.statusNow);
        if changed.Err? { return Err(Domain(changed.error)); }
      }
      assert WithStatus(c, req) == Ok(subscription.Value());
      result := SaveAndPublish(subscription);
    }

    method DeleteSubscription(req: Request) returns (result: Result<Aggregate, UseCaseError>)
      requires req.DeleteRequest?
      modifies repository, publisher
      ensures var served := Serve(parse, old(repository.docs), req);
              && repository.docs == served.docs
              && publisher.published == old(publisher.published) + served.events
              && result == served.result
    {
      var found := FindSubscription(req.id, req.tenantId);
      if found.Err? { return Err(found.error); }
      var subscription := new WebhookSubscription(found.value);
      subscription.Delete(req.now);
      result := SaveAndPublish(subscription);
    }
  }

  /** The unique index, as an invariant: no two documents of a tenant share a URL. */
  predicate UniqueUrls(docs: Store) {
    forall i, j | i in docs && j in docs && docs[i].tenantId == docs[j].tenantId && docs[i].targetUrl == docs[j].targetUrl ::
      i == j
  }
}
