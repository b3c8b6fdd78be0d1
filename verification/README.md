# Product catalogue write path, modelled in Dafny

This project models the event-sourced write path of a product-catalogue
service (`ms-productos-v2`). Commands in `ProductService` never write the
product table. Each one publishes a single domain event through
`ProductProducer` to the Kafka topic of that event's kind and answers
straight away. `ProductConsumer` listens on the four topics and applies each
event to the `productos` table through the reactive repository.
`ProductMapper` converts between the stored entity and the HTTP transport
objects, and merges partial update requests.

Layout, one module per source component:

- `wrappers.dfy` (`Wrappers`): `Option`, the model of a Java reference that may be `null`.
- `domain.dfy` (`Domain`): Java `long`/`int` ranges, `intValue()` truncation, the `Producto` row.
- `events.dfy` (`Events`): the four event records and their union `Event`.
- `repository.dfy` (`Repository`): the keyed store as a class over `map<Long, Producto>`. Its invariant is that every row carries its own key as id.
- `producer.dfy` (`Producer`): topic constants, kind-to-topic routing, and the producer as a class appending `Record(topic, key, event)` to a channel log.
- `consumer.dfy` (`Consumer`): what each event does to the store, as functions. The four listener methods are proved to do exactly that. Lemmas cover idempotence, untouched keys, in-order stock updates and a scenario.
- `service.dfy` (`Service`): the command and query methods.
- `mapper.dfy` (`Mapper`): the transport objects, the two conversions and the update merge.
- `pipeline.dfy` (`Pipeline`): producer, then channel, then consumer, end to end. It also relates the commands' optimistic answers to the rows that are eventually stored.

Assumptions made explicit in the model:

- The repository's `save` is an upsert keyed by id (`Repository.ProductRepository.Save`).
- A row saved without an id is stored under `generatedId`. That value is a parameter standing for the database's choice, and the model does not constrain it.
- Clock readings (`LocalDateTime.now()`) are parameters too: `Env.now` in the consumer and `now` in the mapper.
- Each send and each store write completes before the next step. Delivery is serial, in the order records were appended (`Pipeline.DeliverAll`). The source itself guarantees no such order.
- Prices are opaque bit patterns that are only copied. The float/double conversions are passed in as functions.
- The transport classes `Product` and `ProductUpdateRequest` are generated code that is not part of this model. Their fields are inferred from the getters and setters the mapper calls.

## Model

| member | source | states |
|---|---|---|
| `Domain.IntValue` | src/main/java/org/example/mapper/ProductMapper.java:27 | `intValue()` gives the unique 32-bit signed value congruent to the long modulo 2^32 |
| `Domain.IntValueIdentityIff` | src/main/java/org/example/mapper/ProductMapper.java:27 | `intValue()` returns its argument if and only if the argument fits in a Java `int` |
| `Repository.Lookup` | src/main/java/org/example/repository/ProductRepository.java:8 | a lookup finds a row exactly when the id is a key, and then it is that key's row |
| `Repository.ProductRepository.constructor` | src/main/java/org/example/repository/ProductRepository.java:8 | a fresh store is empty and keyed by id |
| `Repository.ProductRepository.FindById` | src/main/java/org/example/repository/ProductRepository.java:8 | `findById` returns the row under the id, or nothing |
| `Repository.ProductRepository.FindAll` | src/main/java/org/example/repository/ProductRepository.java:8 | `findAll` returns exactly the stored rows |
| `Repository.ProductRepository.Save` | src/main/java/org/example/repository/ProductRepository.java:8 | `save` upserts the row under its id (or the generated id), touches no other key and keeps every row under its own id |
| `Repository.ProductRepository.DeleteById` | src/main/java/org/example/repository/ProductRepository.java:8 | `deleteById` removes that key only; an absent key is not an error |
| `Producer.TopicForInjective` | src/main/java/org/example/producer/ProductProducer.java:14-17 | the four topic names are pairwise distinct, so routing by kind is injective |
| `Producer.ProductProducer.constructor` | src/main/java/org/example/producer/ProductProducer.java:19-21 | a new producer has sent nothing |
| `Producer.ProductProducer.SendProductCreatedEvent` | src/main/java/org/example/producer/ProductProducer.java:23-25 | appends exactly one unkeyed record carrying the event unchanged, on "product-created" |
| `Producer.ProductProducer.SendProductUpdatedEvent` | src/main/java/org/example/producer/ProductProducer.java:27-29 | appends exactly one unkeyed record carrying the event unchanged, on "product-updated" |
| `Producer.ProductProducer.SendProductDeletedEvent` | src/main/java/org/example/producer/ProductProducer.java:31-33 | appends exactly one unkeyed record carrying the event unchanged, on "product-deleted" |
| `Producer.ProductProducer.SendProductStockUpdatedEvent` | src/main/java/org/example/producer/ProductProducer.java:35-37 | appends exactly one unkeyed record carrying the event unchanged, on "product-stock-updated" |
| `Consumer.ApplyCreated` | src/main/java/org/example/consumer/ProductConsumer.java:24-33 | a created event stores, under its id, a row with the event's fields, `activo = true` and the current time, replacing any earlier row; other keys keep their rows |
| `Consumer.ApplyUpdated` | src/main/java/org/example/consumer/ProductConsumer.java:37-47 | for a present id, exactly nombre, descripcion, precio and stock are overwritten, and id, activo and fechaCreacion are kept; for an absent id the store is unchanged; other keys keep their rows |
| `Consumer.ApplyStockUpdated` | src/main/java/org/example/consumer/ProductConsumer.java:55-62 | for a present id only that row's stock changes; for an absent id the store is unchanged and no row is created |
| `Consumer.ApplyDeleted` | src/main/java/org/example/consumer/ProductConsumer.java:50-52 | afterwards the id is absent whether or not it was present; every other row is kept |
| `Consumer.Apply` | src/main/java/org/example/consumer/ProductConsumer.java:23-62 | whatever its kind, an event leaves every key other than its own id unchanged |
| `Consumer.ApplyKeepsKeyedById` | src/main/java/org/example/consumer/ProductConsumer.java:24-62 | every handler keeps each row stored under its own id |
| `Consumer.ApplyUpdatedIdempotent` | src/main/java/org/example/consumer/ProductConsumer.java:37-47 | applying an updated event twice equals applying it once |
| `Consumer.ApplyStockUpdatedIdempotent` | src/main/java/org/example/consumer/ProductConsumer.java:55-62 | applying a stock-updated event twice equals applying it once |
| `Consumer.ApplyDeletedIdempotent` | src/main/java/org/example/consumer/ProductConsumer.java:50-52 | applying a deleted event twice equals applying it once |
| `Consumer.ApplyCreatedIdempotent` | src/main/java/org/example/consumer/ProductConsumer.java:24-33 | redelivering a created event that carries an id, at the same clock reading, equals delivering it once (a null-id event is not idempotent: see `Consumer.RedeliveredCreatedWithoutIdDuplicates`) |
| `Consumer.RedeliveredCreatedWithoutIdDuplicates` | src/main/java/org/example/consumer/ProductConsumer.java:26-33 | a created event with a null id, delivered twice under two generated ids, leaves two rows |
| `Consumer.ApplyAllOtherKeysUntouched` | src/main/java/org/example/consumer/ProductConsumer.java:24-62 | a run of events none of which targets key k leaves k's row, or its absence, as it was |
| `Consumer.LastStockWins` | src/main/java/org/example/consumer/ProductConsumer.java:37-62 | updated and stock-updated events for an existing row, applied in order, leave the row present with the last event's stock and the same id, activo and fechaCreacion; when the last event is an updated event, the row is exactly the original with that event's nombre, descripcion, precio and stock |
| `Consumer.CreateThenRestockScenario` | src/main/java/org/example/consumer/ProductConsumer.java:24-62 | created{1, "A", stock 5} then stock-updated{1, 2} leaves row 1 named "A", with stock 2 and active; other rows are untouched |
| `Consumer.ProductConsumer.constructor` | src/main/java/org/example/consumer/ProductConsumer.java:19-21 | the consumer works on the repository it is given |
| `Consumer.ProductConsumer.ConsumeProductCreatedEvent` | src/main/java/org/example/consumer/ProductConsumer.java:23-34 | the store afterwards is `ApplyCreated` of the store before |
| `Consumer.ProductConsumer.ConsumeProductUpdatedEvent` | src/main/java/org/example/consumer/ProductConsumer.java:36-47 | the store afterwards is `ApplyUpdated` of the store before |
| `Consumer.ProductConsumer.ConsumeProductDeletedEvent` | src/main/java/org/example/consumer/ProductConsumer.java:49-52 | the store afterwards is `ApplyDeleted` of the store before |
| `Consumer.ProductConsumer.ConsumeProductStockUpdatedEvent` | src/main/java/org/example/consumer/ProductConsumer.java:54-62 | the store afterwards is `ApplyStockUpdated` of the store before |
| `Service.ProductService.constructor` | src/main/java/org/example/service/ProductService.java:20-24 | the service uses the given repository and producer |
| `Service.ProductService.FindAll` | src/main/java/org/example/service/ProductService.java:26-28 | returns exactly the stored rows and changes nothing |
| `Service.ProductService.FindById` | src/main/java/org/example/service/ProductService.java:30-32 | returns the stored row with that id, or nothing, and changes nothing |
| `Service.ProductService.Save` | src/main/java/org/example/service/ProductService.java:41-51 | publishes exactly one created event with the input's id, nombre, descripcion, precio and stock; returns the input unchanged; the store is not written |
| `Service.ProductService.Update` | src/main/java/org/example/service/ProductService.java:53-63 | publishes exactly one updated event carrying the `id` argument and `updated`'s other four fields; returns `updated`; the store is not written |
| `Service.ProductService.UpdateStock` | src/main/java/org/example/service/ProductService.java:65-73 | publishes exactly one stock-updated event (id, n); returns the stored row with stock n when the id is present, otherwise nothing; the store is not written |
| `Service.ProductService.Delete` | src/main/java/org/example/service/ProductService.java:75-79 | publishes exactly one deleted event and returns, without reading or writing the store |
| `Mapper.ToProducto` | src/main/java/org/example/mapper/ProductMapper.java:12-22 | the id is widened when present and stays null otherwise; name, description and stock are copied; the price is converted when present; the entity is active and stamped with the given time |
| `Mapper.ToDto` | src/main/java/org/example/mapper/ProductMapper.java:25-33 | the id is the low 32 bits of the entity id when present; nombre, descripcion and stock are copied; the price is narrowed when present |
| `Mapper.ToDtoForgetsActivoAndFecha` | src/main/java/org/example/mapper/ProductMapper.java:25-33 | the transport form does not depend on activo or fechaCreacion |
| `Mapper.RoundTripThroughDto` | src/main/java/org/example/mapper/ProductMapper.java:12-33 | `toProducto(toDto(p))` keeps nombre, descripcion and stock, and keeps the id if and only if it is null or within 32-bit range |
| `Mapper.MergeUpdateRequest` | src/main/java/org/example/mapper/ProductMapper.java:36-42 | each of nombre, descripcion, precio and stock is replaced exactly when the request field is non-null; id, activo and fechaCreacion never change |
| `Mapper.MergeAllNullIsIdentity` | src/main/java/org/example/mapper/ProductMapper.java:36-42 | a request whose fields are all null returns the entity unchanged |
| `Mapper.MergeIdempotent` | src/main/java/org/example/mapper/ProductMapper.java:36-42 | merging the same request twice equals merging it once |
| `Pipeline.PublishAll` | src/main/java/org/example/producer/ProductProducer.java:23-37 | a run of sends appends, in order, one record per event: on the topic of its kind, unkeyed, carrying the event unchanged |
| `Pipeline.ListenerMatchesProducer` | src/main/java/org/example/consumer/ProductConsumer.java:23-54 | for each kind, the topic the producer sends it to is the topic of the consumer's listener for that same kind |
| `Pipeline.DeliverPublished` | src/main/java/org/example/producer/ProductProducer.java:23-37 | a published event, once delivered, has exactly the effect of its own handler |
| `Pipeline.PublishThenDeliver` | src/main/java/org/example/consumer/ProductConsumer.java:23-62 | delivering in order everything a run of sends appended changes the store exactly as applying those events in order does |
| `Pipeline.SaveAnswerVersusStoredRow` | src/main/java/org/example/service/ProductService.java:41-51 | the row a created event eventually stores equals the answer of `save`, except for a generated id, activo and fechaCreacion |
| `Pipeline.UpdateAnswerIsEventualRow` | src/main/java/org/example/handler/ProductHandler.java:58-70 | after merging a request into a stored row and calling `update`, the applied updated event stores exactly the merged value the command answered with |

## Left out

- HTTP routing, response building, CORS and security configuration. Only the handler's update path is used, in `Pipeline.UpdateAnswerIsEventualRow`, to compose the merge with `update`.
- The low-stock query `obtenerProductosBajoStock`. It calls a SQL function whose body is not part of this model.
- Asynchrony. The reactive `.subscribe()` store writes and the `kafkaTemplate.send` calls complete synchronously here. Failures of either are not modelled. Nothing in the source orders deliveries across topics or keys. This model assumes one serial delivery in append order. `updateStock` reads the store at call time, so the race between that read and the consumer is not modelled.
- Partition keys. Every record carries key `None`, as the source sends them. The consequences of unkeyed records across several partitions and consumer instances are not modelled.
- `Repository.ProductRepository.Save`: modelled as an upsert. For a caller-supplied id with no row, Spring Data R2DBC's own insert-or-update decision is not modelled. The database's choice of a fresh id for a row saved without one is a free parameter. The model does not require that id to be unused.
- `Mapper.MergeUpdateRequest`: the source changes the entity it is given, through its setters, and returns that same object. The model returns the updated value instead. Aliasing is not captured; the only caller passes a freshly read copy.
- Floating point. `doubleValue()` and `floatValue()` on prices are parameters of the mapper functions. Their rounding is not modelled, so no round-trip claim is made about prices.
- The clock. `LocalDateTime.now()` is replaced by a parameter.
- Events with a null id in update, stock-update and delete. Every caller passes an id parsed from the request path, so those ids are modelled as non-null.
- Build, bootstrap and the test sources. The tests only check class loading and getters/setters.
