# Webhook platform: a verified model

A Dafny model of the parts of the webhook platform where mistakes are easy and costly, with proofs of what
those parts promise. Four areas are covered.

**Ingestion** (`envelope`, `inbox`, `worker`, `ingestion`, `ingestion_theorems`, `ingestion_draining`,
`channel_tags`, `sandbox`). The event-ingestion worker as an at-least-once protocol: a ready queue, unacknowledged
deliveries, handlers of several workers each at a program point, an inbox under two unique indexes, acked
and dead-lettered messages. A step is the stretch between two awaits. The upsert is two steps (match, then
insert through the unique indexes), so two handlers can both miss and race; the loser sees the winner's
record or gets the raw duplicate-key error. Channels close and workers crash at any point; after `stop()` the
old handlers go on, because nothing awaits them. Every delivery draws a new record id, clock reading and
fallback correlation id. The code itself is modelled as classes (`worker`), and one uninterrupted call of the
broker adapter is proved to be a run of the protocol. `channel_tags` numbers deliveries per channel, as the
broker does, and says when that makes a difference. `sandbox` is the publisher's side.

**Subscriptions** (`subscription`, `use_cases`, `store_theorems`, `sessions`,
`session_histories`, `listing`, `pagination`). The
aggregate, the Mongo repository and the three writing use cases as classes, each method proved against a
function on values; serial runs of requests; and interleaved sessions that read, work on a private copy, later
save the whole record and later still publish. What needs no session to save a copy that another has overtaken is
separated from what holds in every interleaving.

**Hosts and masking** (`target_url`, `ipv6`, `ipv6_hosts`, `url_acceptance`, `masking`). The text tests that refuse
private hosts, against numeric predicates on the address, through the IPv6 serialiser of the WHATWG URL Standard
(section 3.5, "Host serializing"); which URLs are accepted, said on the parsed URL; and the display mask, label by
label, against exactly what it may reveal.

**The development script's table** (`table`): alignment of cells with complete or cut-off colour escapes.

`text` and `results` hold the string functions and result types the rest uses.

## What the source does, where its documentation says otherwise

The model follows the code.

- The worker's `main.ts` logs that it drains in-flight work on a signal, and the worker README asks to finish
  in-flight upserts. `stop()` closes the channel and awaits no handler: unacknowledged messages are requeued
  while the old handlers may still insert (`IngestionTheorems.StopDoesNotDrain`, and a run in which one does,
  `Worker.StopInterrupts`). The theorems of the protocol hold all the same.
- The adapter acknowledges through a wrapper that outlives its channel, while tags count from one on every
  channel. A handler left over from a lost channel can therefore acknowledge another message, which is then never
  stored (`ChannelTags.StrayAckLosesMessage`), or dead-letter another, valid one for its own error
  (`ChannelTags.StrayNackLosesMessage`). `ChannelTags.SettledRightlyIff` says exactly in which runs; no live
  handler outliving its channel is enough to avoid both (`ChannelTags.AckAfterPersistPerChannel`).
- The worker README asks for a dead-letter route after N failed attempts. The code nacks without requeue on
  the first failure, so a single repository fault loses a valid message (`Worker.FaultLosesMessage`);
  `IngestionTheorems.LostIff` says exactly when one is lost. A message can also be dead-lettered although it is
  stored (`Worker.FaultAfterInsert`, `Worker.RaceDeadLetters`); with no fault and every race answered exactly the
  invalid ones are (`IngestionTheorems.SettledExactly`).
- The webhook-api README says link-local and unique-local IPv6 addresses are refused. On canonical text the
  code's link-local test is the single first piece fe80, not fe80::/10: of that block exactly fe80::/16 is refused
  (`Ipv6Hosts.LinkLocalRefusedIff`), and fe90::1, say, is accepted (`Ipv6Hosts.AcceptedLinkLocal`). The
  unique-local test also takes first pieces fc, fd and fc0 to fdf (`Ipv6Hosts.TextHead`).
- The URL limit of 2048 is checked on the text sent, while the longer normalised text is stored and checked
  again on every read, so a subscription can be created and then never read, changed or deleted
  (`StoreTheorems.OverlongUrlIsStored`); `StoreTheorems.CreatedIsReadableIff` says exactly when.
- "Soft-delete" is final for the aggregate and in serial runs, but `save` has no version check: a patch read
  before a delete and saved after it brings the record back (`Sessions.OverlapRevivesDeleted`);
  `Sessions.DeletedIsFinalWhen` and `Sessions.DeletedIsFinalIff` say when.

## Model

| member | source | states |
|---|---|---|
| `Envelope.DedupKeyRule` | packages/event-ingestion-worker/src/application/use-cases/ingest-event.usecase.ts:64-74 | a key resolves exactly when the envelope's event id is it, or that id is absent or empty and the broker id is it, and it is not blank; a blank event id never falls back |
| `Envelope.AcceptedIff` | packages/event-ingestion-worker/src/runtime/envelope-parser.ts:13-26 | a message is accepted exactly if its JSON fields are of the right types, a correlation id if any is a UUID, and key, tenant and event type are not blank, and is refused for the first thing wrong otherwise; an accepted one is known by its event id if that is a non-empty string and by the broker's id if not, and carries the texts and the object of its own fields |
| `Inbox.InboxMongoRepository.UpsertByDedupKey` | packages/event-ingestion-worker/src/infrastructure/inbox/inbox-mongo.repository.ts:64-81 | inserts only if no document has the key, never touches a stored one, reports what the atomic map would report; the unique indexes are kept |
| `Inbox.InMemoryInboxRepository.UpsertByDedupKey` | packages/event-ingestion-worker/src/application/use-cases/support/fakes.ts:23-30 | is the atomic set-if-absent |
| `Inbox.AsMapHoldsEveryDocument` | packages/event-ingestion-worker/src/infrastructure/inbox/schemas/inbox-record.schema.ts:42 | under the unique index the collection is a map from key to record that loses no document |
| `Worker.IngestEventUseCase.Execute` | packages/event-ingestion-worker/src/application/use-cases/ingest-event.usecase.ts:39-57 | an invalid message is refused for the first thing wrong with it and writes nothing; a result means the key of the message is stored and says whether it was new, and a new record has the fields of the message and the id and time of this delivery |
| `Worker.RabbitMqBrokerConsumerAdapter.HandleMessage` | packages/event-ingestion-worker/src/infrastructure/broker/rabbitmq-broker-consumer.adapter.ts:52-72 | one ack or one nack for a message still held, none for a null one; the ack only with the key stored, the nack exactly when handling failed |
| `Worker.RabbitMqBrokerConsumerAdapter.Disconnect` | packages/event-ingestion-worker/src/infrastructure/broker/rabbitmq-broker-consumer.adapter.ts:41-44 | every unacknowledged message goes back, nothing is settled by closing |
| `Worker.HandleMessageIsARun` | packages/event-ingestion-worker/src/infrastructure/broker/rabbitmq-broker-consumer.adapter.ts:62-71 | the effect of one uninterrupted call is that of an admissible run of protocol steps: the state machine below is the code's |
| `Worker.FaultLosesMessage` | packages/event-ingestion-worker/src/infrastructure/broker/rabbitmq-broker-consumer.adapter.ts:66-70 | for every valid message, the run of six steps with one repository fault that settles it dead-lettered and not stored |
| `Worker.FaultAfterInsert` | packages/event-ingestion-worker/src/infrastructure/broker/rabbitmq-broker-consumer.adapter.ts:62-71 | for every valid message, the run in which the repository call fails after its insert went through: the message is stored and dead-lettered |
| `Worker.RaceEnds` | packages/event-ingestion-worker/src/infrastructure/inbox/inbox-mongo.repository.ts:72-80 | two deliveries of one key have both found no match: the first insert is stored and acked, the loser is acked if it is answered with the winner's record and dead-lettered for the duplicate-key error if not |
| `Worker.RaceDeadLetters` | packages/event-ingestion-worker/src/infrastructure/inbox/inbox-mongo.repository.ts:72-80 | so for every two valid messages with one key there is a run, without repository faults, that stores the first and dead-letters the second |
| `Worker.StopInterrupts` | packages/event-ingestion-worker/src/infrastructure/broker/rabbitmq-broker-consumer.adapter.ts:41-44 | for every valid message, the run in which a worker stopped in mid-upsert still stores its record while the message waits to be delivered again |
| `Ingestion.PlacedStep` | packages/event-ingestion-worker/src/infrastructure/broker/rabbitmq-broker-consumer.adapter.ts:35-72 | each step, crash and close included, keeps every message in exactly one place |
| `Ingestion.HandlersOkStep` | packages/event-ingestion-worker/src/infrastructure/broker/rabbitmq-broker-consumer.adapter.ts:62-71 | at every program point a handler holds what its message calls for; before an ack the key is stored |
| `Ingestion.InboxOkStep` | packages/event-ingestion-worker/src/infrastructure/inbox/inbox-mongo.repository.ts:72-78 | each step keeps both indexes unique and every record built from some published message |
| `Ingestion.InvRun` | packages/event-ingestion-worker/src/runtime/ingestion-runtime.service.ts:23-50 | the whole invariant over every run, and the inbox only grows at its end |
| `IngestionTheorems.Conservation` | packages/event-ingestion-worker/src/infrastructure/broker/rabbitmq-broker-consumer.adapter.ts:52-72 | in every reachable state each published message is ready, unacked, acked or dead-lettered, in exactly one of them and held once |
| `IngestionTheorems.AckAfterPersist` | packages/event-ingestion-worker/src/infrastructure/broker/rabbitmq-broker-consumer.adapter.ts:62-70 | every acked message has its key in the inbox, and so has every message nacked by a duplicate-key error; a rejected one is invalid; the inbox holds nothing unpublished |
| `IngestionTheorems.StoredFields` | packages/event-ingestion-worker/src/domain/inbox/aggregates/inbox-record.aggregate.ts:42-54 | in every run, each stored record has the key, tenant, event type and payload of a valid published message, the id and time that one delivery of that message drew, and the message's correlation id or, if it has none, the one that delivery drew |
| `IngestionTheorems.StopDoesNotDrain` | packages/event-ingestion-worker/src/runtime/ingestion-runtime.service.ts:28-31 | stopping puts what the worker held back to ready and leaves each handler where it was; one about to insert still inserts; all are done afterwards exactly if they were before |
| `IngestionTheorems.OnlyConsumersHold` | packages/event-ingestion-worker/src/infrastructure/broker/rabbitmq-broker-consumer.adapter.ts:52-60 | in every run the broker counts deliveries only against workers that are consuming: one that has stopped or died is given nothing until it starts again |
| `IngestionTheorems.FirstWriteStays` | packages/event-ingestion-worker/src/infrastructure/inbox/inbox-mongo.repository.ts:67-78 | under any later deliveries, one record per key, and the stored one keeps its id, receivedAt, correlation id and payload |
| `IngestionTheorems.UpsertRefinesAtomicInsert` | packages/event-ingestion-worker/src/infrastructure/inbox/inbox-mongo.repository.ts:64-81 | under any interleaving, the two-step indexed upsert leaves the inbox, and gives the answers, of the same calls made one after another on the atomic map |
| `IngestionTheorems.AtMostOneReport` | packages/event-ingestion-worker/src/application/use-cases/support/fakes.ts:23-30 | on the atomic map: one insertion report per new key, and the first record offered is the one kept |
| `IngestionTheorems.ExactlyOneAndTheFirst` | packages/event-ingestion-worker/src/infrastructure/inbox/inbox-mongo.repository.ts:64-81 | over a whole concurrent run at most one upsert per key reports "inserted" and the record kept is the first offered; without errors exactly the stored keys were reported |
| `IngestionTheorems.OnlyFaultsLose` | packages/event-ingestion-worker/src/infrastructure/broker/rabbitmq-broker-consumer.adapter.ts:66-70 | once settled, a valid message is stored or was dead-lettered for a repository fault; nothing else loses one |
| `IngestionTheorems.LostIff` | packages/event-ingestion-worker/src/infrastructure/broker/rabbitmq-broker-consumer.adapter.ts:62-71 | once settled, a valid message's key is missing exactly when no upsert for that key ever reached the index or a match, and then it was dead-lettered for a repository fault |
| `IngestionTheorems.SettledKeys` | packages/event-ingestion-worker/src/application/use-cases/ingest-event.usecase.ts:39-74 | once settled without repository faults, the inbox keys are exactly those of the valid messages, each its event id or else the broker's id |
| `IngestionTheorems.SettledExactly` | packages/event-ingestion-worker/src/infrastructure/broker/rabbitmq-broker-consumer.adapter.ts:62-71 | once settled without repository faults and with every lost race answered, exactly the valid messages are acked, and exactly the others dead-lettered, each for the first thing wrong with it |
| `IngestionTheorems.ScheduleIndependence` | packages/event-ingestion-worker/src/application/use-cases/ingest-event.usecase.ts:39-74 | two settled fault-free runs over the same multiset of messages end with the same keys, whatever the workers, order, crashes and redeliveries |
| `IngestionDraining.WeightStep` | packages/event-ingestion-worker/src/infrastructure/broker/rabbitmq-broker-consumer.adapter.ts:58-71 | every ordinary step lowers the weight of queue and program points; a disruption raises it by at most five per message |
| `IngestionDraining.RunsAreBounded` | packages/event-ingestion-worker/src/infrastructure/broker/rabbitmq-broker-consumer.adapter.ts:41-71 | with D crashes, closes and restarts and n messages a run has at most its weight plus D * (5n + 1) steps |
| `IngestionDraining.StuckMeansSettled` | packages/event-ingestion-worker/src/infrastructure/broker/rabbitmq-broker-consumer.adapter.ts:58-71 | a reachable state with a consumer and no ordinary step left has nothing ready or unacked |
| `IngestionDraining.Drains` | packages/event-ingestion-worker/src/runtime/ingestion-runtime.service.ts:23-50 | from every reachable state with a consumer, ordinary steps settle every message |
| `ChannelTags.TagsAreTransparent` | packages/event-ingestion-worker/src/infrastructure/broker/rabbitmq-broker-consumer.adapter.ts:62-71 | with tags numbered per channel, a run in which no ack or nack goes astray is a run of the protocol above, so all its theorems hold |
| `ChannelTags.ConservationPerChannel` | packages/event-ingestion-worker/src/infrastructure/broker/rabbitmq-broker-consumer.adapter.ts:52-72 | in every run with tags numbered per channel, whatever goes astray, each message is in exactly one place and the inbox keeps one record per key, from some published message |
| `ChannelTags.TagsCountFromOne` | packages/event-ingestion-worker/src/infrastructure/broker/rabbitmq-broker-consumer.adapter.ts:35-44 | in every run a delivery is tagged with its place, from one, among those on its worker's present channel |
| `ChannelTags.SettledRightlyIff` | packages/event-ingestion-worker/src/infrastructure/broker/rabbitmq-broker-consumer.adapter.ts:62-71 | for every such run: acked is stored all along it exactly when no ack of it is stray and names a message not stored at that moment, and every dead-letter reason is true of its message all along it exactly when no nack is stray and gives a reason that is not |
| `ChannelTags.AckAfterPersistPerChannel` | packages/event-ingestion-worker/src/infrastructure/broker/rabbitmq-broker-consumer.adapter.ts:41-71 | if no live handler outlives its channel, the whole invariant of the protocol holds and every acked message is stored, with tags numbered per channel |
| `ChannelTags.StrayAckLosesMessage` | packages/event-ingestion-worker/src/infrastructure/broker/rabbitmq-broker-consumer.adapter.ts:65 | for every two valid messages with different keys, the fault-free run through one lost channel that acks the second without ever storing it |
| `ChannelTags.StrayNackLosesMessage` | packages/event-ingestion-worker/src/infrastructure/broker/rabbitmq-broker-consumer.adapter.ts:66-70 | for every invalid and every valid message, the fault-free run through one lost channel that dead-letters the valid one for the other's error, unstored |
| `Sandbox.CorrelationIdInterceptor.Intercept` | packages/idp/src/sandbox-api/interceptors/correlation-id.interceptor.ts:18-24 | rewrites the body in place: a correlation id that is missing, null, false, zero or empty becomes the new one, a supplied one and every other field stay; an array gets the property only |
| `Sandbox.BackfillRule` | packages/idp/src/sandbox-api/interceptors/correlation-id.interceptor.ts:18-24 | a supplied correlation id is unchanged, a missing or falsy one becomes the new one, no other field changes |
| `Sandbox.RabbitMqBrokerPublisherAdapter.Publish` | packages/idp/src/sandbox-api/adapters/rabbitmq-broker-publisher.adapter.ts:36-51 | appends one message under the minted event id, with its content type and the correlation id as a native property |
| `Sandbox.RequestAcceptedIff` | packages/idp/src/sandbox-api/dto/create-event.dto.ts:11-27 | validation after the interceptor lets exactly the requests through whose tenant and event type are strings, whose payload is an object and whose correlation id is falsy or a UUID, with their own fields, a correlation id and no event id |
| `Sandbox.PublishedFields` | packages/idp/src/sandbox-api/adapters/rabbitmq-broker-publisher.adapter.ts:36-51 | the JSON that goes out is the caller's tenant, event type and payload as they came, the correlation id and the minted event id, and nothing else; there is no native message id |
| `Sandbox.PublishedIsAccepted` | packages/idp/src/sandbox-api/adapters/rabbitmq-broker-publisher.adapter.ts:36-51 | the worker accepts a published request exactly when tenant and event type are not blank, under the minted event id, with the body's own tenant, event type and payload and its own correlation id, or the minted one if it has none |
| `Sandbox.PublishToInbox` | packages/idp/src/sandbox-api/adapters/rabbitmq-broker-publisher.adapter.ts:36-51 | n publishes and any settled fault-free run give n records, one per request, under its minted event id, with the tenant, event type and payload of its body and its own correlation id, or the minted one if it has none |
| `Subscription.WebhookSubscription.Pause` | packages/webhook-api/src/domain/subscription/aggregates/subscription.aggregate.ts:105-112 | only from ACTIVE, with its event and time; otherwise an error and no change |
| `Subscription.WebhookSubscription.Resume` | packages/webhook-api/src/domain/subscription/aggregates/subscription.aggregate.ts:114-121 | only from PAUSED, with its event and time; otherwise an error and no change |
| `Subscription.WebhookSubscription.Delete` | packages/webhook-api/src/domain/subscription/aggregates/subscription.aggregate.ts:124-131 | once, with its event; afterwards no change at all |
| `Subscription.WebhookSubscription.UpdateTargetUrl` | packages/webhook-api/src/domain/subscription/aggregates/subscription.aggregate.ts:133-137 | changes URL and updatedAt, never on a deleted subscription |
| `Subscription.WebhookSubscription.UpdateSubscribedEventTypes` | packages/webhook-api/src/domain/subscription/aggregates/subscription.aggregate.ts:139-144 | changes event types and updatedAt, never to none and never on a deleted subscription |
| `Subscription.WebhookSubscription.PullDomainEvents` | packages/webhook-api/src/domain/subscription/aggregates/subscription.aggregate.ts:147-151 | hands out the pending events once and leaves none |
| `Subscription.HistoryDeterminesStatus` | packages/webhook-api/src/domain/subscription/aggregates/subscription.aggregate.ts:56-151 | over every run of operations on a created subscription, pulled batches and pending events form a word of Created (Paused Resumed)* [Paused] [Deleted] whose fold is the current status |
| `Subscription.EveryWordHappens` | packages/webhook-api/src/domain/subscription/aggregates/subscription.aggregate.ts:105-131 | and every word of that language is the history of some run, so the language is exact |
| `Subscription.RestoredContinues` | packages/webhook-api/src/domain/subscription/aggregates/subscription.aggregate.ts:75-87 | a restored aggregate re-emits nothing, and what it emits continues from its stored status |
| `Subscription.HistoryIsTimely` | packages/webhook-api/src/domain/subscription/aggregates/subscription.aggregate.ts:105-144 | under a clock that never runs back, event times are in order between createdAt and updatedAt |
| `Subscription.DeletedAggregateIsFinal` | packages/webhook-api/src/domain/subscription/aggregates/subscription.aggregate.ts:124-157 | no sequence of operations changes a deleted aggregate or makes it emit anything |
| `UseCases.SubscriptionMongoRepository.Save` | packages/webhook-api/src/infrastructure/subscription/subscription-mongo.repository.ts:73-76 | replaces the whole record under its id, whatever is stored there, unless the unique index refuses it; then nothing changes |
| `UseCases.SubscriptionMongoRepository.FindOneByIdAndTenant` | packages/webhook-api/src/infrastructure/subscription/subscription-mongo.repository.ts:78-84 | finds a record only under its own tenant |
| `UseCases.SubscriptionMongoRepository.FindOneByTenantAndTargetUrl` | packages/webhook-api/src/infrastructure/subscription/subscription-mongo.repository.ts:86-92 | finds a record with the pair whenever there is one, deleted ones included |
| `UseCases.SubscriptionUseCases.CreateSubscription` | packages/webhook-api/src/application/use-cases/create-subscription.usecase.ts:30-56 | store, published events and result are those of serving the request; every error leaves store and publisher alone; success means the URL was safe and is stored in normal form |
| `UseCases.SubscriptionUseCases.ApplyStatus` | packages/webhook-api/src/application/use-cases/update-subscription.usecase.ts:68-82 | ACTIVE resumes, PAUSED pauses, DELETED is refused |
| `UseCases.SubscriptionUseCases.UpdateSubscription` | packages/webhook-api/src/application/use-cases/update-subscription.usecase.ts:38-66 | store, published events and result are those of serving the request, whichever of the three changes fails; success with a new URL means it was safe and is stored in normal form |
| `UseCases.SubscriptionUseCases.DeleteSubscription` | packages/webhook-api/src/application/use-cases/delete-subscription.usecase.ts:27-43 | store, published events and result are those of serving the request |
| `UseCases.SubscriptionUseCases.SaveAndPublish` | packages/webhook-api/src/application/use-cases/update-subscription.usecase.ts:62-65 | events leave only once the record is stored, and leave drained |
| `StoreTheorems.StoreRoundTrip` | packages/webhook-api/src/infrastructure/subscription/subscription-mongo.repository.ts:40-67 | writing and reading back gives the subscription back exactly when its URL fits the limit, and the length error otherwise |
| `StoreTheorems.RecordRoundTrip` | packages/webhook-api/src/infrastructure/subscription/subscription-mongo.repository.ts:40-67 | a record that can be read is written back as it was, and only its length can stop it being read |
| `StoreTheorems.RestoreIsExact` | packages/webhook-api/src/infrastructure/subscription/subscription-mongo.repository.ts:54-67 | for any stored record, valid or not: exactly when it can be read, what is read, and which field stops it otherwise |
| `StoreTheorems.ReachableRoundTrip` | packages/webhook-api/src/infrastructure/subscription/subscription-mongo.repository.ts:40-67 | both ways for every record any serial run leaves stored, from an empty or any valid store |
| `StoreTheorems.PreparedRoundTrip` | packages/webhook-api/src/infrastructure/subscription/subscription-mongo.repository.ts:40-76 | and for every subscription a use case is about to save |
| `StoreTheorems.CreateIsExact` | packages/webhook-api/src/application/use-cases/create-subscription.usecase.ts:30-56 | a create succeeds exactly when its fields are valid, its URL is at most 2048 characters of https without userinfo to a host that is not refused, and nobody of the tenant, deleted or not, has the normalised URL; then one new record holds what was asked for, and one event tells of it |
| `StoreTheorems.CreateFailsFor` | packages/webhook-api/src/application/use-cases/create-subscription.usecase.ts:30-50 | otherwise nothing changes and the error is that of the first thing wrong: tenant, URL, duplicate, identifiers, event types; a duplicate over the length limit is reported as too long |
| `StoreTheorems.UrlDecidesCreate` | packages/webhook-api/src/application/use-cases/create-subscription.usecase.ts:31-32 | with everything else in order, a create succeeds exactly if the parsed URL is https without userinfo and its host neither localhost in any case, nor a malformed or private dotted quad, nor a private IPv6 address, and the text has at most 2048 characters |
| `StoreTheorems.TakenIsClash` | packages/webhook-api/src/infrastructure/subscription/schemas/subscription.schema.ts:43-44 | for a record not stored yet the duplicate check and the unique index look for the same thing |
| `StoreTheorems.CreatedIsReadableIff` | packages/webhook-api/src/domain/subscription/value-objects/target-url.vo.ts:8-36 | a subscription just created can be loaded exactly when its normalised URL has at most 2048 characters |
| `StoreTheorems.OverlongUrlIsStored` | packages/webhook-api/src/domain/subscription/value-objects/target-url.vo.ts:8-36 | a concrete URL, 700 quotes in its path, that is accepted at 712 characters and stored at 2112, after which every update and delete of the subscription fails at its read |
| `TargetUrl.RevalidationIsLength` | packages/webhook-api/src/domain/subscription/value-objects/target-url.vo.ts:8-36 | an accepted URL re-validates to itself exactly when the normalised text fits the limit |
| `StoreTheorems.PatchIsAllOrNothing` | packages/webhook-api/src/application/use-cases/update-subscription.usecase.ts:38-82 | a patch succeeds exactly when it is legal in every part, the URL by the same measure; then the stored record is the composition of its changes with one event if the status changes; otherwise store and events are untouched |
| `StoreTheorems.PatchFailsFor` | packages/webhook-api/src/application/use-cases/update-subscription.usecase.ts:38-82 | and the error is that of the first thing wrong: reading the record, the URL, the event types, the status, the index |
| `StoreTheorems.UrlDecidesPatch` | packages/webhook-api/src/application/use-cases/update-subscription.usecase.ts:48-50 | a patch of the URL alone succeeds exactly if the URL is public in that sense and short enough, and stores its normal form |
| `StoreTheorems.RunKeepsStoreOk` | packages/webhook-api/src/infrastructure/subscription/schemas/subscription.schema.ts:44 | every serial run keeps the unique index, ids under their own key, identifiers and event types that are not blank, and URLs in normal form that are https without userinfo to a host that is not refused |
| `StoreTheorems.StoredUrlsArePublic` | packages/webhook-api/src/domain/subscription/value-objects/target-url.vo.ts:8-36 | so whatever a serial run leaves stored has a public URL: no userinfo, and no localhost, no private dotted quad and no private IPv6 address as its host |
| `StoreTheorems.DeletedIsFinal` | packages/webhook-api/src/application/use-cases/delete-subscription.usecase.ts:27-43 | from the first delete on, every serial sequence of requests leaves the record identical, updatedAt included, and publishes nothing about it |
| `StoreTheorems.DeleteIsIdempotent` | packages/webhook-api/src/application/use-cases/delete-subscription.usecase.ts:27-43 | delete succeeds on every readable record, with its one event the first time and no change or event after |
| `StoreTheorems.DeleteFailsFor` | packages/webhook-api/src/application/use-cases/delete-subscription.usecase.ts:27-43 | delete fails exactly when the record cannot be read: bad id or tenant, not the tenant's, or a stored URL over the limit |
| `StoreTheorems.TenantFrameStep` | packages/webhook-api/src/infrastructure/subscription/subscription-mongo.repository.ts:73-92 | a request changes no record of another tenant and hands back only its own |
| `StoreTheorems.TenantFrame` | packages/webhook-api/src/infrastructure/subscription/subscription-mongo.repository.ts:73-92 | over whole runs of one tenant's requests every other tenant's records stay, although saves are by id alone |
| `StoreTheorems.TenantsDoNotInterfere` | packages/webhook-api/src/application/use-cases/create-subscription.usecase.ts:30-56 | what a tenant gets, publishes and stores is the same from any two stores that agree on its own records |
| `StoreTheorems.RunsDoNotInterfere` | packages/webhook-api/src/application/use-cases/create-subscription.usecase.ts:30-56 | in a serial run of any number of tenants' requests, each tenant ends with the records, gets the results and publishes the events of its own requests run alone |
| `StoreTheorems.PublishedIsHistory` | packages/webhook-api/src/application/use-cases/update-subscription.usecase.ts:62-65 | in every serial run from an empty store in which no record's clock is turned back, the events published per id are its full history: a word of the language that determines its stored status, in time order between createdAt and updatedAt |
| `StoreTheorems.ClockIsInTime` | packages/webhook-api/src/application/use-cases/update-subscription.usecase.ts:38-66 | one clock that never runs backwards, read by all requests in turn, turns no record's clock back |
| `Sessions.Serialisation` | packages/webhook-api/src/infrastructure/subscription/subscription-mongo.repository.ts:73-92 | an interleaving in which no session saves a copy that another session's save has overtaken leaves the store, and gives each session the outcome, of serving the requests one by one in the order in which outcomes are decided; only the error of a create that lost the index race differs |
| `Sessions.EndOrderIsExact` | packages/webhook-api/src/infrastructure/subscription/subscription-mongo.repository.ts:73-92 | that order names every session whose outcome is decided, once |
| `Sessions.CurrentRun` | packages/webhook-api/src/infrastructure/subscription/subscription-mongo.repository.ts:73-92 | in every interleaving the copies that nobody has overtaken are what preparing again would give, but for a URL taken meanwhile |
| `Sessions.WithoutOverlap` | packages/webhook-api/src/infrastructure/subscription/subscription-mongo.repository.ts:73-92 | in particular, sessions that do not overlap on a record between read and save serialise, and a delete is final |
| `Sessions.SaveIsServe` | packages/webhook-api/src/application/use-cases/create-subscription.usecase.ts:34-52 | saving a private copy nobody has overtaken is serving the request now, same store and same outcome |
| `Sessions.UniqueInEveryInterleaving` | packages/webhook-api/src/infrastructure/subscription/schemas/subscription.schema.ts:44 | no interleaving, overlapping or not, breaks the uniqueness of (tenantId, targetUrl) |
| `Sessions.PublicInEveryInterleaving` | packages/webhook-api/src/domain/subscription/value-objects/target-url.vo.ts:8-36 | in every interleaving too, every stored URL is public and its own normal form |
| `Sessions.TenantFrameInEveryInterleaving` | packages/webhook-api/src/infrastructure/subscription/subscription-mongo.repository.ts:73-84 | no interleaving of one tenant's sessions changes another tenant's records |
| `Sessions.InterleavingsDoNotInterfere` | packages/webhook-api/src/infrastructure/subscription/subscription-mongo.repository.ts:73-92 | in every interleaving of any number of tenants' sessions, overlapping or not, each tenant's records and sessions end as in the run of its own steps alone |
| `Sessions.DeletedIsFinalWhen` | packages/webhook-api/src/infrastructure/subscription/subscription-mongo.repository.ts:73-76 | every continuation leaves a deleted record identical if no session holds a different copy of it at that moment, and some continuation does not if one holds a copy the index would let it save |
| `Sessions.DeletedIsFinalIff` | packages/webhook-api/src/infrastructure/subscription/subscription-mongo.repository.ts:73-76 | if and only if, when no session holds a copy with another URL |
| `Sessions.DeletedIsFinalUnlessOvertaken` | packages/webhook-api/src/application/use-cases/delete-subscription.usecase.ts:27-43 | if no overtaken copy is saved, a record deleted at any moment of a run is identical at its end |
| `Sessions.OverlapRevivesDeleted` | packages/webhook-api/src/infrastructure/subscription/subscription-mongo.repository.ts:73-76 | for every active readable record, the schedule in which a pause and a delete both succeed, the record ends up paused and the events go out in an order no history has; neither serial order does that |
| `SessionHistories.PublishedPerRecord` | packages/webhook-api/src/application/use-cases/update-subscription.usecase.ts:62-65 | if also no record is saved again before it has been published, what is published about a record is at every moment what the serial run publishes about it, short of what its one session between save and publish still owes |
| `SessionHistories.InTimeUnlessOvertaken` | packages/webhook-api/src/application/use-cases/update-subscription.usecase.ts:38-66 | clock readings in the order of the reads are in time in the serial run, which goes by the order of the saves |
| `SessionHistories.HistoriesUnlessOvertaken` | packages/webhook-api/src/application/use-cases/update-subscription.usecase.ts:38-66 | from an empty store, under those two conditions: whenever no session is between saving and publishing a record, what has been published about it is its whole timed history, which determines its stored status |
| `SessionHistories.HistoriesWithoutOverlap` | packages/webhook-api/src/application/use-cases/update-subscription.usecase.ts:38-66 | in particular, when sessions do not overlap on a record from read to publish |
| `Listing.List` | packages/webhook-api/src/infrastructure/subscription/subscription-mongo.repository.ts:94-119 | the restored records of the asked page of the matching records, with their total; fails exactly when a record on the page cannot be restored |
| `Listing.FilterAndSlice` | packages/webhook-api/src/application/use-cases/support/fakes.ts:60-83 | filter and slice give the page and total that query, skip and limit give, and nothing at page size 0 |
| `Listing.PageMatches` | packages/webhook-api/src/infrastructure/subscription/subscription-mongo.repository.ts:99-109 | every record a page shows is stored, belongs to the tenant, has the status asked for and subscribes to the event type asked for |
| `Listing.SelectConcat` | packages/webhook-api/src/infrastructure/subscription/subscription-mongo.repository.ts:107-109 | the selection keeps the order of the snapshot |
| `Listing.PagesListTheTenant` | packages/webhook-api/src/infrastructure/subscription/subscription-mongo.repository.ts:94-119 | all pages together hold each of the tenant's records with the asked status and event type as often as it is stored, and nothing else |
| `Pagination.PagesPartition` | packages/webhook-api/src/infrastructure/subscription/subscription-mongo.repository.ts:107-109 | pages 1 to ceil(total/size) in a row are the list; all but the last are full, the last is not empty, later ones are |
| `Pagination.SkipLimitIsSlice` | packages/webhook-api/src/application/use-cases/support/fakes.ts:74-75 | skip and limit agree with slice exactly when there is a limit or nothing left to limit: a limit of 0 is none |
| `Pagination.PaginationInterceptor.Intercept` | packages/webhook-api/src/presentation/common/interceptors/pagination.interceptor.ts:23-43 | attaches the numbers the parameters spell, or 1 and 20, each at least one; refuses exactly non-numerals and zero, attaching nothing |
| `Pagination.NumeralsAreAccepted` | packages/webhook-api/src/presentation/common/interceptors/pagination.interceptor.ts:35-43 | every positive number's decimal text is read as that number |
| `TargetUrl.MappedIsExact` | packages/webhook-api/src/domain/subscription/value-objects/target-url.vo.ts:96-102 | any spelling of `::ffff:h:l`, in either case and with one to four hex digits each, is classified as the number h * 65536 + l is by 0/8, 10/8, 127/8, 169.254/16, 172.16/12 and 192.168/16 |
| `TargetUrl.DottedIsNumeric` | packages/webhook-api/src/domain/subscription/value-objects/target-url.vo.ts:68-82 | shifts, decimal join, split and Number lose nothing: the octet tests are the block tests |
| `TargetUrl.QuadHostIsNumeric` | packages/webhook-api/src/domain/subscription/value-objects/target-url.vo.ts:50-82 | every host text the IPv4 pattern matches, leading zeros included, is refused exactly when an octet is above 255 or its number is in one of those blocks |
| `TargetUrl.DottedHostIsNumeric` | packages/webhook-api/src/domain/subscription/value-objects/target-url.vo.ts:50-62 | a canonical dotted quad is refused exactly when its number is in one of those blocks |
| `Ipv6.SerialiseRoundTrip` | packages/webhook-api/src/domain/subscription/value-objects/target-url.vo.ts:84-105 | the canonical text with its longest zero run compressed reads back as the eight pieces |
| `Ipv6.SerialiseInjective` | packages/webhook-api/src/domain/subscription/value-objects/target-url.vo.ts:84-105 | no two addresses share a canonical text, so a text test can be a numeric one |
| `Ipv6Hosts.TextHead` | packages/webhook-api/src/domain/subscription/value-objects/target-url.vo.ts:87-88 | which first pieces the prefixes `fe80:`, `fc` and `fd` stand for on canonical text |
| `Ipv6Hosts.MappedDecision` | packages/webhook-api/src/domain/subscription/value-objects/target-url.vo.ts:93-102 | after `::ffff:` the two patterns match on canonical text exactly the mapped addresses, and decide by their IPv4 number |
| `Ipv6Hosts.TextTestIsNumericTest` | packages/webhook-api/src/domain/subscription/value-objects/target-url.vo.ts:84-105 | for every address the text test on its canonical text equals an explicit predicate on its eight pieces, and so does the test on it as a host, bracketed or bare |
| `Ipv6Hosts.UniqueLocalIsRefused` | packages/webhook-api/src/domain/subscription/value-objects/target-url.vo.ts:88 | every address of fc00::/7 is refused |
| `Ipv6Hosts.LinkLocalRefusedIff` | packages/webhook-api/src/domain/subscription/value-objects/target-url.vo.ts:87 | of fe80::/10 exactly the addresses of fe80::/16 are refused |
| `Ipv6Hosts.AcceptedLinkLocal` | packages/webhook-api/src/domain/subscription/value-objects/target-url.vo.ts:84-105 | fe90::1 is link-local and accepted |
| `Ipv6Hosts.MappedAgreesWithDotted` | packages/webhook-api/src/domain/subscription/value-objects/target-url.vo.ts:50-102 | an IPv4 address is decided alike in dotted and in mapped form |
| `UrlAcceptance.HostTestIsExact` | packages/webhook-api/src/domain/subscription/value-objects/target-url.vo.ts:50-62 | the host test refuses localhost in any case, every dotted quad with an octet out of range or a private number, and every private IPv6 address, and of the hosts a URL parser gives no other |
| `UrlAcceptance.UrlIsAcceptedIff` | packages/webhook-api/src/domain/subscription/value-objects/target-url.vo.ts:8-36 | a text is accepted, as its normal form, exactly if it has at most 2048 characters and parses as https without userinfo to a host that is not refused, and is refused for the first of these that fails otherwise |
| `Text.UuidIsItsGroups` | packages/webhook-api/src/domain/subscription/value-objects/subscription-id.vo.ts:11-16 | an identifier is accepted as a UUID exactly if splitting at hyphens gives five groups of 8, 4, 4, 4 and 12 hex digits |
| `Text.BlankIffTrimmedAway` | packages/webhook-api/src/domain/subscription/value-objects/tenant-id.vo.ts:6-11 | a value counts as empty exactly if trimming leaves nothing of it |
| `Masking.MaskedLabelByLabel` | packages/webhook-api/src/presentation/common/interceptors/target-url-masking.interceptor.ts:70-99 | any other hostname keeps its number of labels: 4 to 12 asterisks for each subdomain, the first three characters of the domain label, or all of a shorter one, and 3 to 8 asterisks, and `**`; each number of asterisks has an equal share of the draws |
| `Masking.HiddenLabels` | packages/webhook-api/src/presentation/common/interceptors/target-url-masking.interceptor.ts:72-78 | a hostname of one label, or of four of one to three digits each, becomes 6 to 14 asterisks and nothing else |
| `Masking.MaskedAlikeIff` | packages/webhook-api/src/presentation/common/interceptors/target-url-masking.interceptor.ts:70-99 | with the same draws two hostnames are masked alike exactly when both are hidden, or they have as many labels and the same first three characters in the last label but one |
| `Masking.MaskedUrlHidesOnlyTheHost` | packages/webhook-api/src/presentation/common/interceptors/target-url-masking.interceptor.ts:56-66 | two URLs that differ only in the host are masked alike exactly when their hosts are, by the same measure |
| `Masking.MaskedUrlKeepsTheRest` | packages/webhook-api/src/presentation/common/interceptors/target-url-masking.interceptor.ts:56-66 | a masked URL is its own scheme, port, path, query and fragment around the masked host; an unparsable one is left alone |
| `Table.StripAppend` | scripts/dev.mjs:39-43 | stripping escapes distributes over concatenation with text that cannot complete one, even after a cut-off escape |
| `Table.StripPaint` | scripts/dev.mjs:28-43 | painting changes nothing that can be seen |
| `Table.StripPadEnd` | scripts/dev.mjs:43-44 | padding shows as padding, whatever escapes the text has |
| `Table.TableAligned` | scripts/dev.mjs:310-316 | every rendered line has visible width 2 + sum(widths) + 3 * (columns - 1) and consists of its cells, each padded with spaces to its column's width, three spaces apart; and each column is exactly as wide as its widest cell, header included |
| `Table.OnlyTheHeaderIsPainted` | scripts/dev.mjs:314-316 | with colour the header line is wrapped in the bold escape, and no other line changes |
| `Table.StripIsExact` | scripts/dev.mjs:39-43 | from left to right, a whole escape is removed and every other character kept |

## Left out

- The webhook delivery worker and key management: there is no code, only a README.
- Nest modules, controllers, guards, Swagger, envelope wrapping, exception-to-status mapping, logging: wiring
  or one-branch tables, which would only add easy members. The same holds for `maskResponse`, which chooses
  whether to mask one item or many.
- AMQP and Mongo client internals: the broker is a queue with redelivery, the collections are documents under
  unique indexes. In the protocol delivery tags are never reused, and `channel_tags` lifts that; the client library
  is not part of this model, and is taken to send an ack on whichever channel is open at that moment. An ack or nack of
  a tag the channel does not know has no effect by itself; that a broker then closes the channel is a
  `Disconnect` step. Queue order is not modelled: any ready message may be delivered next, which allows more runs
  than a queue does.
- Mongo `find` has no sort, so pages are taken from one fixed snapshot order; two pages read around a write may
  overlap or skip.
- The WHATWG URL parser is a parameter, assumed only to be idempotent (`Normalising`: parsing its own output
  changes nothing). Only the IPv6 host serialiser is written out.
- JSON text, class-validator and class-transformer: a message body is a JSON value or malformed, and validation
  is a predicate on it. A UUID is the 8-4-4-4-12 shape in hex digits; version and variant bits are not checked.
- UUID generation is a source of ids nobody has used, stated as an explicit condition where it matters.
  `Math.random` is an oracle of draws in [0, 1).
- Numbers are unbounded, so a page number past 2^53 keeps its precision; string lengths count characters, not
  UTF-16 units. `Number` and `parseInt` are modelled on the labels and groups the patterns let through. A
  query parameter given several times, which the interceptor refuses, is not represented.
- DNS rebinding, redirects, and which address ranges ought to be refused.
- The in-memory subscription repository's aliasing: it hands out live objects, so a failed patch is visible
  there. Only its filter and slice are modelled.
- Process handling, sockets, timers and terminal output of the development script. Its table is modelled for
  rows as long as a non-empty header, which both of its calls provide.
- Sessions.Serialisation: the serial run uses each session's own clock readings and new id. A stale save that
  happens to write what serving the request at that moment would write is not counted as serial.
- Sessions.DeletedIsFinalWhen: leaves open the case that the index refuses every stale copy held at that moment.
- SessionHistories.PublishedPerRecord: a session that dies between save and publish owes its events for good, so
  runs in which the record is saved again afterwards are not covered; the code has no outbox, and the events are
  lost.
- UseCases.SubscriptionUseCases.CreateSubscription: asks for the unique index as a precondition, so that the
  duplicate found is determined; `StoreTheorems.RunKeepsStoreOk` and `Sessions.UniqueInEveryInterleaving` keep it.
- StoreTheorems.UrlDecidesCreate: takes a URL whose host is a name, a dotted quad or a canonical IPv6 address, as a URL
  parser gives them; `StoreTheorems.CreateIsExact` has no such condition, and for any other host follows the code's test.
- StoreTheorems.PublishedIsHistory: holds for runs in which no crash falls between save and publish; the code
  has no outbox, and such a crash loses the events.
